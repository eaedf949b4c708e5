/**
 * RegistrationValidation: the registration form action that checks the
 * submitted fields against the platform's rules (Mattermost-compatible
 * usernames, the account attributes, a CAC not yet registered, a usable and
 * unused e-mail address) and, once the user exists, stores the Mattermost id,
 * binds the X.509 identity and sets the required actions.
 */
module RegistrationValidation {
  import opened Wrappers
  import opened Strings
  import Common
  import opened Keycloak
  import X509Tools

  // Fields and messages of the registration page that are specific to the plugin
  const FieldAffiliation: string := "user.attributes.affiliation"
  const FieldRank: string := "user.attributes.rank"
  const FieldOrganization: string := "user.attributes.organization"
  /** The user attribute holding the generated Mattermost id. */
  const MattermostIdAttribute: string := "mattermostid"

  // ---------------------------------------------------------------------
  // mattermostUsernameValidation
  // ---------------------------------------------------------------------

  /** One character of the pattern `[A-Za-z0-9-_.]`. */
  predicate IsUsernameChar(c: char)
  {
    IsAsciiLetter(c) || IsDigit(c) || c == '-' || c == '_' || c == '.'
  }

  /** `String.matches("[A-Za-z0-9-_.]+")`: the whole string, at least one character. */
  predicate MatchesUsernamePattern(s: string)
  {
    |s| >= 1 && forall i :: 0 <= i < |s| ==> IsUsernameChar(s[i])
  }

  /**
   * Character.isLetter of `charAt(0)`. A character outside the Basic
   * Multilingual Plane is a surrogate pair in Java, and its first unit is no
   * letter.
   */
  predicate IsLetter(c: char, platform: Platform)
  {
    if c < '\U{0080}' then IsAsciiLetter(c)
    else if c <= '\U{FFFF}' then platform.isNonAsciiLetter(c)
    else false
  }

  /** The messages mattermostUsernameValidation appends, in order; nothing for a blank username. */
  function MattermostUsernameErrors(username: Option<string>, platform: Platform): (r: seq<FormMessage>)
    ensures IsBlank(username) ==> r == []
    ensures |r| <= 3
  {
    if IsBlank(username) then []
    else
      var u := username.value;
      (if !MatchesUsernamePattern(u) then [Message(FieldUsername, UsernameCharset)] else [])
      + (if !IsLetter(u[0], platform) then [Message(FieldUsername, UsernameFirstLetter)] else [])
      + (if Utf16Length(u) < Common.MinUserNameLength || Utf16Length(u) > Common.MaxUserNameLength
         then [Message(FieldUsername, UsernameLength)] else [])
  }

  /** The character-set rule reports exactly when the username leaves `[A-Za-z0-9-_.]`. */
  lemma CharsetRule(u: string, platform: Platform)
    requires !IsBlank(Some(u))
    ensures Message(FieldUsername, UsernameCharset) in MattermostUsernameErrors(Some(u), platform)
            <==> !MatchesUsernamePattern(u)
  {
  }

  /** The first-letter rule reports exactly when the first character is no letter. */
  lemma FirstLetterRule(u: string, platform: Platform)
    requires !IsBlank(Some(u))
    ensures Message(FieldUsername, UsernameFirstLetter) in MattermostUsernameErrors(Some(u), platform)
            <==> !IsLetter(u[0], platform)
  {
  }

  /**
   * The length rule reports exactly when the username is not 3 to 22 UTF-16
   * units long (Java's String.length()).
   */
  lemma LengthRule(u: string, platform: Platform)
    requires !IsBlank(Some(u))
    ensures Message(FieldUsername, UsernameLength) in MattermostUsernameErrors(Some(u), platform)
            <==> (Utf16Length(u) < 3 || Utf16Length(u) > 22)
  {
  }

  /**
   * A non-blank username passes iff it is 3 to 22 characters from
   * `[A-Za-z0-9-_.]` and begins with an ASCII letter; such a username is
   * ASCII, so its Java length is its character count.
   */
  lemma UsernameAcceptedIff(u: string, platform: Platform)
    requires !IsBlank(Some(u))
    ensures MattermostUsernameErrors(Some(u), platform) == [] <==>
      (MatchesUsernamePattern(u) && IsAsciiLetter(u[0]) && 3 <= |u| <= 22)
  {
    if MatchesUsernamePattern(u) {
      assert IsUsernameChar(u[0]);
      assert forall i :: 0 <= i < |u| ==> u[i] <= '\U{FFFF}' by {
        forall i | 0 <= i < |u| ensures u[i] <= '\U{FFFF}' { assert IsUsernameChar(u[i]); }
      }
      Utf16LengthBmp(u);
    }
  }

  // ---------------------------------------------------------------------
  // validate
  // ---------------------------------------------------------------------

  /** `if (Validation.isBlank(formData.getFirst(field))) errors.add(...)`. */
  function Required(form: FormData, field: string, message: Msg): (r: seq<FormMessage>)
    ensures r == [] <==> !IsBlank(GetFirst(form, field))
    ensures r != [] ==> r == [Message(field, message)]
  {
    if IsBlank(GetFirst(form, field)) then [Message(field, message)] else []
  }

  predicate EmailInvalid(form: FormData, env: RequestEnv)
  {
    var email := GetFirst(form, FieldEmail);
    IsBlank(email) || !env.platform.isEmailValid(email.value)
  }

  predicate EmailInUse(form: FormData, env: RequestEnv)
    requires env.realm.Some?
  {
    env.realm.value.userByEmail(GetFirst(form, FieldEmail)).Some?
  }

  /** The username checks: "missing" for a blank one, otherwise the Mattermost rules. */
  function UsernameErrors(form: FormData, platform: Platform): seq<FormMessage>
  {
    var username := GetFirst(form, FieldUsername);
    (if IsBlank(username) then [Message(FieldUsername, MissingUsernameMessage)] else [])
    + MattermostUsernameErrors(username, platform)
  }

  /**
   * Every check of the form's own fields, in order: the username, then the
   * first and last name, affiliation, rank and organization.
   */
  function FieldErrors(form: FormData, platform: Platform): seq<FormMessage>
  {
    UsernameErrors(form, platform)
    + Required(form, FieldFirstName, MissingFirstNameMessage)
    + Required(form, FieldLastName, MissingLastNameMessage)
    + Required(form, FieldAffiliation, MissingAffiliation)
    + Required(form, FieldRank, MissingRank)
    + Required(form, FieldOrganization, MissingOrganization)
  }

  /** The CAC check: an identity already bound to a user. */
  function CacErrors(env: RequestEnv): seq<FormMessage>
    requires env.realm.Some?
  {
    if X509Tools.IsX509Registered(env) then [FormMessage(None, CacAlreadyRegistered, [])] else []
  }

  function InvalidEmailErrors(form: FormData, env: RequestEnv): seq<FormMessage>
  {
    if EmailInvalid(form, env) then [Message(FieldEmail, InvalidEmail)] else []
  }

  function EmailInUseErrors(form: FormData, env: RequestEnv): seq<FormMessage>
    requires env.realm.Some?
  {
    if EmailInUse(form, env) then [Message(Common.Email, EmailExistsMessage)] else []
  }

  /** The complete error list validate builds, in the order the checks run. */
  function RegistrationErrors(form: FormData, env: RequestEnv): seq<FormMessage>
    requires env.realm.Some?
  {
    FieldErrors(form, env.platform) + CacErrors(env) + InvalidEmailErrors(form, env)
    + EmailInUseErrors(form, env)
  }

  /** The event details validate records. */
  function RegistrationDetails(form: FormData, env: RequestEnv): seq<(string, Option<string>)>
    requires env.realm.Some?
  {
    var email := GetFirst(form, FieldEmail);
    (if EmailInvalid(form, env) then [(DetailEmail, email)] else [])
    + (if EmailInUse(form, env) then [(Common.Email, email)] else [])
  }

  /** The arguments of validate's context.error calls. */
  function RegistrationEventErrors(form: FormData, env: RequestEnv): seq<string>
    requires env.realm.Some?
  {
    (if X509Tools.IsX509Registered(env) then [ErrorInvalidRegistration] else [])
    + (if RegistrationErrors(form, env) == [] then []
       else [if EmailInUse(form, env) then ErrorEmailInUse else ErrorInvalidRegistration])
  }

  /** The form handed back with the errors: an e-mail address in use is cleared. */
  function RedisplayedForm(form: FormData, env: RequestEnv): FormData
    requires env.realm.Some?
  {
    if EmailInUse(form, env) then form - {Common.Email} else form
  }

  /** One `if (Validation.isBlank(formData.getFirst(field))) errors.add(new FormMessage(field, message))`. */
  method AddIfBlank(errors: seq<FormMessage>, form: FormData, field: string, message: Msg)
    returns (r: seq<FormMessage>)
    ensures r == errors + Required(form, field, message)
  {
    r := errors;
    if IsBlank(GetFirst(form, field)) {
      r := r + [Message(field, message)];
    }
  }

  /** The field checks at the head of validate, which touch nothing but the error list. */
  method CollectFieldErrors(formData: FormData, platform: Platform) returns (errors: seq<FormMessage>)
    ensures errors == FieldErrors(formData, platform)
  {
    errors := [];
    var username := GetFirst(formData, FieldUsername);
    if IsBlank(username) {
      errors := errors + [Message(FieldUsername, MissingUsernameMessage)];
    }
    errors := errors + MattermostUsernameErrors(username, platform);
    assert errors == UsernameErrors(formData, platform);
    errors := AddIfBlank(errors, formData, FieldFirstName, MissingFirstNameMessage);
    errors := AddIfBlank(errors, formData, FieldLastName, MissingLastNameMessage);
    errors := AddIfBlank(errors, formData, FieldAffiliation, MissingAffiliation);
    errors := AddIfBlank(errors, formData, FieldRank, MissingRank);
    errors := AddIfBlank(errors, formData, FieldOrganization, MissingOrganization);
  }

  /**
   * The CAC check of validate: an identity already bound to a user adds its
   * message, logs INVALID_REGISTRATION and hands the list over at once.
   */
  method CheckCac(ctx: ValidationContext, formData: FormData, errors: seq<FormMessage>)
    returns (r: seq<FormMessage>)
    requires ctx.env.realm.Some?
    modifies ctx
    ensures r == errors + CacErrors(ctx.env)
    ensures var registered := X509Tools.IsX509Registered(ctx.env);
      && ctx.errorEvents == old(ctx.errorEvents) + (if registered then [ErrorInvalidRegistration] else [])
      && ctx.errors == (if registered then r else old(ctx.errors))
      && ctx.formData == (if registered then formData else old(ctx.formData))
      && ctx.validationFailed == (old(ctx.validationFailed) || registered)
    ensures ctx.eventDetails == old(ctx.eventDetails) && ctx.succeeded == old(ctx.succeeded)
    ensures ctx.standardValidationRan == old(ctx.standardValidationRan)
  {
    r := errors;
    if X509Tools.GetX509Username(ctx.env).Some? && X509Tools.IsX509Registered(ctx.env) {
      r := r + [FormMessage(None, CacAlreadyRegistered, [])];
      ctx.Error(ErrorInvalidRegistration);
      ctx.ValidationError(formData, r);
    }
  }

  /**
   * The e-mail checks of validate: an invalid address and an address in use
   * each record a detail and add a message; an address in use also switches
   * the event error to EMAIL_IN_USE and clears the field from the form.
   */
  method CheckEmail(ctx: ValidationContext, formData: FormData, errors: seq<FormMessage>)
    returns (r: seq<FormMessage>, form: FormData, eventError: string)
    requires ctx.env.realm.Some?
    modifies ctx
    ensures r == errors + InvalidEmailErrors(formData, ctx.env) + EmailInUseErrors(formData, ctx.env)
    ensures form == RedisplayedForm(formData, ctx.env)
    ensures eventError == if EmailInUse(formData, ctx.env) then ErrorEmailInUse else ErrorInvalidRegistration
    ensures ctx.eventDetails == old(ctx.eventDetails) + RegistrationDetails(formData, ctx.env)
    ensures ctx.errorEvents == old(ctx.errorEvents) && ctx.errors == old(ctx.errors)
    ensures ctx.formData == old(ctx.formData) && ctx.validationFailed == old(ctx.validationFailed)
    ensures ctx.succeeded == old(ctx.succeeded) && ctx.standardValidationRan == old(ctx.standardValidationRan)
  {
    var email := GetFirst(formData, FieldEmail);
    r := errors;
    form := formData;
    eventError := ErrorInvalidRegistration;
    if EmailInvalid(formData, ctx.env) {
      ctx.Detail(DetailEmail, email);
      r := r + [Message(FieldEmail, InvalidEmail)];
    }
    assert r == errors + InvalidEmailErrors(formData, ctx.env);
    assert ctx.eventDetails == old(ctx.eventDetails)
      + (if EmailInvalid(formData, ctx.env) then [(DetailEmail, email)] else []);
    if EmailInUse(formData, ctx.env) {
      eventError := ErrorEmailInUse;
      form := form - {Common.Email};
      ctx.Detail(Common.Email, email);
      r := r + [Message(Common.Email, EmailExistsMessage)];
    }
    AppendAssoc(old(ctx.eventDetails), if EmailInvalid(formData, ctx.env) then [(DetailEmail, email)] else [],
      if EmailInUse(formData, ctx.env) then [(Common.Email, email)] else []);
  }

  /**
   * validate. The error list is one list throughout: the early
   * validationError of an already-registered CAC hands over the same list the
   * final call hands over, so the context ends up with every message.
   */
  method Validate(ctx: ValidationContext)
    requires ctx.env.realm.Some?
    modifies ctx
    ensures var form := old(ctx.formData);
      var errs := RegistrationErrors(form, ctx.env);
      && ctx.errors == (if errs != [] then errs else old(ctx.errors))
      && ctx.formData == (if errs != [] then RedisplayedForm(form, ctx.env) else form)
      && ctx.validationFailed == (old(ctx.validationFailed) || errs != [])
      && ctx.succeeded == (old(ctx.succeeded) || errs == [])
      && ctx.eventDetails == old(ctx.eventDetails) + RegistrationDetails(form, ctx.env)
      && ctx.errorEvents == old(ctx.errorEvents) + RegistrationEventErrors(form, ctx.env)
      && ctx.standardValidationRan == old(ctx.standardValidationRan)
  {
    var formData := ctx.formData;
    var errors := CollectFieldErrors(formData, ctx.env.platform);
    errors := CheckCac(ctx, formData, errors);
    var eventError;
    errors, formData, eventError := CheckEmail(ctx, formData, errors);
    AppendAssoc(old(ctx.errorEvents),
      if X509Tools.IsX509Registered(ctx.env) then [ErrorInvalidRegistration] else [],
      if errors == [] then [] else [eventError]);
    if errors != [] {
      ctx.Error(eventError);
      ctx.ValidationError(formData, errors);
    } else {
      ctx.Success();
    }
  }

  lemma AppendAssoc<T>(a: seq<T>, b: seq<T>, c: seq<T>)
    ensures a + b + c == a + (b + c)
  {
  }

  /** With a blank username the only username message is "missing username". */
  lemma BlankUsernameReportsOnlyMissing(form: FormData, platform: Platform)
    requires IsBlank(GetFirst(form, FieldUsername))
    ensures UsernameErrors(form, platform) == [Message(FieldUsername, MissingUsernameMessage)]
  {
  }

  /** The form is accepted iff every check passes. */
  lemma RegistrationAcceptedIff(form: FormData, env: RequestEnv)
    requires env.realm.Some?
    ensures RegistrationErrors(form, env) == [] <==>
      (!IsBlank(GetFirst(form, FieldUsername))
       && MattermostUsernameErrors(GetFirst(form, FieldUsername), env.platform) == []
       && !IsBlank(GetFirst(form, FieldFirstName)) && !IsBlank(GetFirst(form, FieldLastName))
       && !IsBlank(GetFirst(form, FieldAffiliation)) && !IsBlank(GetFirst(form, FieldRank))
       && !IsBlank(GetFirst(form, FieldOrganization))
       && !X509Tools.IsX509Registered(env)
       && !EmailInvalid(form, env) && !EmailInUse(form, env))
  {
  }

  /** A CAC that is already registered always fails the registration, with its own message. */
  lemma RegisteredCacIsRejected(form: FormData, env: RequestEnv)
    requires env.realm.Some? && X509Tools.IsX509Registered(env)
    ensures FormMessage(None, CacAlreadyRegistered, []) in RegistrationErrors(form, env)
    ensures RegistrationEventErrors(form, env)[0] == ErrorInvalidRegistration
    ensures |RegistrationEventErrors(form, env)| == 2
  {
    var prefix := FieldErrors(form, env.platform);
    assert RegistrationErrors(form, env)[|prefix|] == CacErrors(env)[0];
  }

  /** An address that belongs to a user is reported as in use, cleared from the form, and logged as such. */
  lemma EmailInUseIsReported(form: FormData, env: RequestEnv)
    requires env.realm.Some? && EmailInUse(form, env)
    ensures RegistrationErrors(form, env) != []
    ensures RegistrationErrors(form, env)[|RegistrationErrors(form, env)| - 1] == Message(Common.Email, EmailExistsMessage)
    ensures var events := RegistrationEventErrors(form, env); events[|events| - 1] == ErrorEmailInUse
    ensures Common.Email !in RedisplayedForm(form, env)
  {
  }

  // ---------------------------------------------------------------------
  // success
  // ---------------------------------------------------------------------

  /** One character's byte under `getBytes(US_ASCII)`: anything outside ASCII becomes '?'. */
  function AsciiByte(c: char): (b: int)
    ensures 0 <= b < 128
    ensures c < '\U{0080}' ==> b == c as int
  {
    if c < '\U{0080}' then c as int else '?' as int
  }

  function ByteSum(s: string): (r: int)
  {
    if s == [] then 0 else ByteSum(s[..|s| - 1]) + AsciiByte(s[|s| - 1])
  }

  /** The sum stays far below 2^31 for any address shorter than 16909320 characters. */
  lemma {:induction false} ByteSumBounds(s: string)
    ensures 0 <= ByteSum(s) <= 127 * |s|
  {
    if s != [] {
      ByteSumBounds(s[..|s| - 1]);
    }
  }

  lemma {:induction false} ByteSumAppend(a: string, b: string)
    ensures ByteSum(a + b) == ByteSum(a) + ByteSum(b)
    decreases |b|
  {
    if b != [] {
      var b' := b[..|b| - 1];
      assert (a + b)[..|a + b| - 1] == a + b';
      assert (a + b)[|a + b| - 1] == b[|b| - 1];
      ByteSumAppend(a, b');
      assert ByteSum(a + b) == ByteSum(a + b') + AsciiByte(b[|b| - 1]);
    } else {
      assert a + b == a;
    }
  }

  /** The Mattermost id does not separate addresses made of the same parts in another order. */
  lemma SwappedPartsCollide(a: string, b: string)
    ensures ByteSum(a + b) == ByteSum(b + a)
  {
    ByteSumAppend(a, b);
    ByteSumAppend(b, a);
  }

  /** The loop of generateUniqueStringIdForMattermost. */
  method EmailByteTotal(email: string) returns (total: int)
    ensures total == ByteSum(email)
  {
    total := 0;
    var i := 0;
    while i < |email|
      invariant 0 <= i <= |email|
      invariant total == ByteSum(email[..i])
    {
      assert email[..i + 1][..i] == email[..i];
      total := total + AsciiByte(email[i]);
      i := i + 1;
    }
    assert email[..i] == email;
  }

  /** The Mattermost id: the timestamp followed by the e-mail's byte sum. */
  function MattermostId(timestamp: string, email: string): (r: string)
    ensures |r| > |timestamp| && r[..|timestamp|] == timestamp
  {
    ByteSumBounds(email);
    timestamp + NatToString(ByteSum(email))
  }

  /**
   * success: stores the Mattermost id, binds the X.509 username to
   * `usercertificate` when there is one, and requires e-mail verification
   * always and an authenticator app only without a CAC. Without an e-mail
   * field, getBytes throws before anything is stored.
   */
  method Success(ctx: FormContext) returns (c: Completion)
    modifies ctx.user
    ensures var email := GetFirst(ctx.formData, FieldEmail);
      var x509 := X509Tools.GetX509Username(ctx.env);
      if email.None? then
        c == NullPointerThrown && ctx.user.attributes == old(ctx.user.attributes)
        && ctx.user.requiredActions == old(ctx.user.requiredActions)
      else
        && c == Completed
        && ctx.user.attributes ==
           (var withId := old(ctx.user.attributes)[MattermostIdAttribute := [MattermostId(ctx.timestamp, email.value)]];
            if x509.Some? then withId[Common.UserIdAttribute := [x509.value]] else withId)
        && ctx.user.requiredActions ==
           old(ctx.user.requiredActions) + {VerifyEmail} + (if x509.None? then {ConfigureTotp} else {})
    ensures ctx.user.password == old(ctx.user.password)
  {
    var user := ctx.user;
    var x509Username := X509Tools.GetX509Username(ctx.env);
    var email := GetFirst(ctx.formData, FieldEmail);
    if email.None? {
      return NullPointerThrown;
    }
    var total := EmailByteTotal(email.value);
    ByteSumBounds(email.value);
    user.SetSingleAttribute(MattermostIdAttribute, Some(ctx.timestamp + NatToString(total)));
    ProcessX509UserAttribute(user, x509Username);
    BindRequiredActions(user, x509Username);
    return Completed;
  }

  /** processX509UserAttribute: `usercertificate` is set iff there is an X.509 username. */
  method ProcessX509UserAttribute(user: User, x509Username: Option<string>)
    modifies user
    ensures user.attributes ==
      if x509Username.Some? then old(user.attributes)[Common.UserIdAttribute := [x509Username.value]]
      else old(user.attributes)
    ensures user.requiredActions == old(user.requiredActions) && user.password == old(user.password)
  {
    if x509Username.Some? {
      user.SetSingleAttribute(Common.UserIdAttribute, x509Username);
    }
  }

  /** bindRequiredActions: VERIFY_EMAIL always, CONFIGURE_TOTP iff there is no X.509 username. */
  method BindRequiredActions(user: User, x509Username: Option<string>)
    modifies user
    ensures user.requiredActions ==
      old(user.requiredActions) + {VerifyEmail} + (if x509Username.None? then {ConfigureTotp} else {})
    ensures user.attributes == old(user.attributes) && user.password == old(user.password)
  {
    user.AddRequiredAction(VerifyEmail);
    if x509Username.None? {
      user.AddRequiredAction(ConfigureTotp);
    }
  }
}
