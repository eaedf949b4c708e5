/**
 * The part of the Keycloak platform the X.509 plugin talks to, reduced to
 * plain values: certificates as sequences of policy slots, the realm's
 * authenticator configurations and user store, the decoded form, the user
 * being registered, and the three contexts a plugin method receives.
 * Library behaviour the plugin only calls (identity extraction, e-mail
 * syntax, password policy, user search) is carried as opaque functions.
 */
module Keycloak {
  import opened Wrappers

  // ---------------------------------------------------------------------
  // Certificates
  // ---------------------------------------------------------------------

  /** One entry of the certificate-policies extension. */
  datatype PolicyInformation =
    | PolicyInformation(policyIdentifier: string)
    /** An entry that does not decode as a PolicyInformation structure. */
    | MalformedPolicyInformation

  /** The certificate-policies extension (OID 2.5.29.32) of a certificate. */
  datatype PolicyExtension =
    | NoPolicyExtension
    /** Present, but its DER bytes do not decode as an octet string holding a sequence. */
    | UndecodablePolicyExtension
    | PolicySequence(entries: seq<PolicyInformation>)

  datatype Certificate = Certificate(subjectDn: string, policies: PolicyExtension)

  // ---------------------------------------------------------------------
  // Realm, user store and library behaviour
  // ---------------------------------------------------------------------

  /** Key of an X.509 authenticator configuration that maps the identity to a custom user attribute. */
  const CustomAttributeName: string := "x509-cert-auth.mapper-selection.user-attribute-name"

  datatype AuthenticatorConfig = AuthenticatorConfig(alias: string, config: map<string, string>)

  datatype PolicyError = PolicyError(message: string, parameters: seq<string>)

  datatype Realm = Realm(
    authenticatorConfigs: seq<AuthenticatorConfig>,
    /** Ids of the users whose attribute `name` holds `value`; None is a null stream. */
    searchByAttribute: (string, string) -> Option<seq<string>>,
    /** Id of the user owning an e-mail address, if any. */
    userByEmail: Option<string> -> Option<string>,
    registrationEmailAsUsername: bool)

  /** Keycloak library code the plugin calls but whose behaviour is not modelled. */
  datatype Platform = Platform(
    /** The identity the X.509 authenticator extracts from a chain under a configuration; None is null. */
    extractIdentity: (AuthenticatorConfig, seq<Certificate>) -> Option<string>,
    /** Validation.isEmailValid. */
    isEmailValid: string -> bool,
    /** The realm's password policy applied to (username, password); None is "no error". */
    passwordPolicy: (Option<string>, Option<string>) -> Option<PolicyError>,
    /** Character.isLetter on a character above U+007F in the Basic Multilingual Plane. */
    isNonAsciiLetter: char -> bool)

  /** How the X509ClientCertificateLookup provider answers for the current request. */
  datatype CertificateLookup =
    | NoLookupProvider
    /** getCertificateChain throws a GeneralSecurityException. */
    | LookupFails
    | LookupChain(chain: Option<seq<Certificate>>)

  /** What a context exposes: session, HTTP request, realm (each possibly null) and the lookup. */
  datatype RequestEnv = RequestEnv(
    sessionPresent: bool,
    requestPresent: bool,
    realm: Option<Realm>,
    lookup: CertificateLookup,
    platform: Platform)

  // ---------------------------------------------------------------------
  // Forms
  // ---------------------------------------------------------------------

  /** Decoded form parameters (a MultivaluedMap). */
  type FormData = map<string, seq<string>>

  /** MultivaluedMap.getFirst: the first value under `key`, or null. */
  function GetFirst(form: FormData, key: string): (r: Option<string>)
    ensures r.Some? <==> key in form && |form[key]| > 0
  {
    if key in form && |form[key]| > 0 then Some(form[key][0]) else None
  }

  /**
   * The message of a FormMessage: a key of Keycloak's message bundle, one of
   * the plugin's literal texts (see Text), or the message of a password
   * policy error.
   */
  datatype Msg =
    | MissingUsernameMessage | MissingFirstNameMessage | MissingLastNameMessage
    | EmailExistsMessage | InvalidPasswordConfirmMessage
    | MissingAffiliation | MissingRank | MissingOrganization
    | CacAlreadyRegistered | InvalidEmail
    | UsernameCharset | UsernameFirstLetter | UsernameLength
    | PolicyMessage(text: string)
  {
    /** The string the form carries. */
    function Text(): string
    {
      match this
      case MissingUsernameMessage => "missingUsernameMessage"
      case MissingFirstNameMessage => "missingFirstNameMessage"
      case MissingLastNameMessage => "missingLastNameMessage"
      case EmailExistsMessage => "emailExistsMessage"
      case InvalidPasswordConfirmMessage => "invalidPasswordConfirmMessage"
      case MissingAffiliation => "Please specify your organization affiliation."
      case MissingRank => "Please specify your rank or choose n/a."
      case MissingOrganization => "Please specify your organization."
      case CacAlreadyRegistered => "Sorry, this CAC seems to already be registered."
      case InvalidEmail => "Please check your email address, it seems to be invalid"
      case UsernameCharset => "Username can only contain alphanumeric, underscore, hyphen and period characters."
      case UsernameFirstLetter => "Username must begin with a letter."
      case UsernameLength => "Username must be between 3 to 22 characters."
      case PolicyMessage(text) => text
    }
  }

  /** A validation message; `field` None is a message not bound to a field. */
  datatype FormMessage = FormMessage(field: Option<string>, message: Msg, parameters: seq<string>)

  function Message(field: string, message: Msg): FormMessage
  {
    FormMessage(Some(field), message, [])
  }

  // Field names of the registration page
  const FieldUsername: string := "username"
  const FieldEmail: string := "email"
  const FieldFirstName: string := "firstName"
  const FieldLastName: string := "lastName"
  const FieldPassword: string := "password"
  const FieldPasswordConfirm: string := "password-confirm"

  // Event errors and details
  const ErrorInvalidRegistration: string := "invalid_registration"
  const ErrorEmailInUse: string := "email_in_use"
  const DetailEmail: string := "email"
  const DetailRegisterMethod: string := "register_method"

  // Built-in required actions
  const VerifyEmail: string := "VERIFY_EMAIL"
  const ConfigureTotp: string := "CONFIGURE_TOTP"

  /** How a plugin method ended: normally, or by an uncaught NullPointerException. */
  datatype Completion = Completed | NullPointerThrown

  // ---------------------------------------------------------------------
  // The user being registered or authenticated
  // ---------------------------------------------------------------------

  class User {
    var attributes: map<string, seq<string>>
    var requiredActions: set<string>
    /** The stored password credential, if one was written. */
    var password: Option<string>

    constructor(attributes: map<string, seq<string>>, requiredActions: set<string>)
      ensures this.attributes == attributes && this.requiredActions == requiredActions
      ensures password == None
    {
      this.attributes := attributes;
      this.requiredActions := requiredActions;
      password := None;
    }

    /** setSingleAttribute: a null value removes the attribute. */
    method SetSingleAttribute(name: string, value: Option<string>)
      modifies this
      ensures attributes == if value.Some? then old(attributes)[name := [value.value]] else old(attributes) - {name}
      ensures requiredActions == old(requiredActions) && password == old(password)
    {
      if value.Some? {
        attributes := attributes[name := [value.value]];
      } else {
        attributes := attributes - {name};
      }
    }

    method AddRequiredAction(action: string)
      modifies this
      ensures requiredActions == old(requiredActions) + {action}
      ensures attributes == old(attributes) && password == old(password)
    {
      requiredActions := requiredActions + {action};
    }

    method SetPassword(value: Option<string>)
      modifies this
      ensures password == value
      ensures attributes == old(attributes) && requiredActions == old(requiredActions)
    {
      password := value;
    }
  }

  // ---------------------------------------------------------------------
  // Contexts
  // ---------------------------------------------------------------------

  /** The context of a form action's validate step. */
  class ValidationContext {
    const env: RequestEnv
    var formData: FormData
    /** Event details recorded, in order. */
    var eventDetails: seq<(string, Option<string>)>
    /** Arguments of every context.error call, in order. */
    var errorEvents: seq<string>
    /** The error list last handed to validationError. */
    var errors: seq<FormMessage>
    var validationFailed: bool
    var succeeded: bool
    /** Whether Keycloak's own password validation (the superclass) ran. */
    var standardValidationRan: bool

    constructor(env: RequestEnv, formData: FormData)
      ensures this.env == env && this.formData == formData
      ensures eventDetails == [] && errorEvents == [] && errors == []
      ensures !validationFailed && !succeeded && !standardValidationRan
    {
      this.env := env;
      this.formData := formData;
      eventDetails := [];
      errorEvents := [];
      errors := [];
      validationFailed := false;
      succeeded := false;
      standardValidationRan := false;
    }

    method Detail(key: string, value: Option<string>)
      modifies this
      ensures eventDetails == old(eventDetails) + [(key, value)]
      ensures formData == old(formData) && errorEvents == old(errorEvents) && errors == old(errors)
      ensures validationFailed == old(validationFailed) && succeeded == old(succeeded)
      ensures standardValidationRan == old(standardValidationRan)
    {
      eventDetails := eventDetails + [(key, value)];
    }

    method Error(error: string)
      modifies this
      ensures errorEvents == old(errorEvents) + [error]
      ensures formData == old(formData) && eventDetails == old(eventDetails) && errors == old(errors)
      ensures validationFailed == old(validationFailed) && succeeded == old(succeeded)
      ensures standardValidationRan == old(standardValidationRan)
    {
      errorEvents := errorEvents + [error];
    }

    method ValidationError(form: FormData, messages: seq<FormMessage>)
      modifies this
      ensures validationFailed && errors == messages && formData == form
      ensures eventDetails == old(eventDetails) && errorEvents == old(errorEvents)
      ensures succeeded == old(succeeded) && standardValidationRan == old(standardValidationRan)
    {
      formData := form;
      errors := messages;
      validationFailed := true;
    }

    /** Keycloak's own RegistrationPassword.validate, which this model does not open up. */
    method RunStandardValidation()
      modifies this
      ensures standardValidationRan
      ensures formData == old(formData) && eventDetails == old(eventDetails)
      ensures errorEvents == old(errorEvents) && errors == old(errors)
      ensures validationFailed == old(validationFailed) && succeeded == old(succeeded)
    {
      standardValidationRan := true;
    }

    method Success()
      modifies this
      ensures succeeded
      ensures formData == old(formData) && eventDetails == old(eventDetails)
      ensures errorEvents == old(errorEvents) && errors == old(errors)
      ensures validationFailed == old(validationFailed) && standardValidationRan == old(standardValidationRan)
    {
      succeeded := true;
    }
  }

  /** The context of a form action's success step, once the user exists. */
  class FormContext {
    const env: RequestEnv
    const formData: FormData
    const user: User
    /** The current time rendered with the pattern "yyDHmsS". */
    const timestamp: string

    constructor(env: RequestEnv, formData: FormData, user: User, timestamp: string)
      ensures this.env == env && this.formData == formData && this.user == user
      ensures this.timestamp == timestamp
    {
      this.env := env;
      this.formData := formData;
      this.user := user;
      this.timestamp := timestamp;
    }
  }

  /** The context of a required action. */
  class RequiredActionContext {
    const env: RequestEnv
    /** The chain the HTTP request itself carries (getClientCertificateChain). */
    const clientCertificateChain: Option<seq<Certificate>>
    const formData: FormData
    const user: User
    /** Notes of the authentication session. */
    var authNotes: map<string, string>
    var succeeded: bool

    constructor(env: RequestEnv, chain: Option<seq<Certificate>>, formData: FormData, user: User,
                authNotes: map<string, string>)
      ensures this.env == env && clientCertificateChain == chain && this.formData == formData
      ensures this.user == user && this.authNotes == authNotes && !succeeded
    {
      this.env := env;
      clientCertificateChain := chain;
      this.formData := formData;
      this.user := user;
      this.authNotes := authNotes;
      succeeded := false;
    }

    method SetAuthNote(name: string, value: string)
      modifies this
      ensures authNotes == old(authNotes)[name := value] && succeeded == old(succeeded)
    {
      authNotes := authNotes[name := value];
    }

    method Success()
      modifies this
      ensures succeeded && authNotes == old(authNotes)
    {
      succeeded := true;
    }
  }
}
