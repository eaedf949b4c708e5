# UDS Core: Keycloak X.509 plugin and operator transforms, in Dafny

This project models two parts of UDS Core and proves properties of them.

- **The Keycloak plugin (Java).**
  - The catalog of accepted certificate-policy OIDs and the bounded scan of the leaf certificate's policy slots, which decides whether an X.509 identity may be derived.
  - The username, password and e-mail checks of self-registration. They collect every error before failing.
  - Binding of required actions and of the `usercertificate` attribute.
  - The one-time UPDATE_X509 required action with its IGNORE_X509 note.
- **The Pepr operator and policies (TypeScript).**
  - Kubernetes resource-name sanitising and the retry loop.
  - Pod-reload selector parsing and the checksum cache.
  - The exemption store keyed by owner.
  - The authservice chain list and its global OIDC settings.
  - Egress host, port and protocol merging.
  - AuthorizationPolicy grouping, and NetworkPolicy naming and peers.
  - CRD field migration and the reconciler's skip and retry state machine.
  - Image-reference parsing and the mutation annotation.
  - Redirect-URI processing.
  - The DoD certificate diff.
  - The authservice and JWT policies with their monitor exemptions.
  - The blackbox exporter's module merge.

There is one Dafny module per source file. Shared modules hold the common pieces:

| module | what it holds |
|---|---|
| `Wrappers` | `Option` |
| `Strings` | trimming, splitting, joining, lower-casing, decimals, code-unit order and Java (UTF-16) lengths |
| `AssocLists` | JavaScript objects and Maps, as insertion-ordered lists of pairs |
| `UniqueLists` | JavaScript Sets |
| `Sorting` | an insertion sort by key |
| `Crd` | the Package and Exemption resources |
| `Keycloak` | what the plugin sees of Keycloak: form data, the user, the validation, form and required-action contexts, and the library calls, which are passed in as functions |

Pure code is modelled as functions with lemmas. Loops are methods whose invariants tie them to those functions. Objects the source keeps and updates across calls are classes. Arrays and maps that a function fills while computing its result are values that the model rebuilds: the egress host map (egress.ts:76-112) and the AuthorizationPolicy group arrays (authorizationPolicies.ts:32-39).

## Model

| member | source | states |
|---|---|---|
| X509Tools.GetCertificatePolicyId | src/keycloak/plugin/src/main/java/com/defenseunicorns/uds/keycloak/plugin/X509Tools.java:113-134 | null without the policy extension or when the slot position is past the sequence; an exception for an undecodable extension or slot; an OID exactly when the slot holds a policy and the identifier position is 0, and then it is that slot's identifier |
| X509Tools.HasAcceptedPolicyIff | src/keycloak/plugin/src/main/java/com/defenseunicorns/uds/keycloak/plugin/X509Tools.java:153-171 | the scan's verdict holds exactly when one of the first ten slots holds an accepted OID and every slot before it is a readable policy |
| X509Tools.VerdictReadsOnlyScannedSlots | src/keycloak/plugin/src/main/java/com/defenseunicorns/uds/keycloak/plugin/X509Tools.java:156-157 | two certificates that agree on the first ten slots get the same verdict |
| X509Tools.CustomAttributeConfigs | src/keycloak/plugin/src/main/java/com/defenseunicorns/uds/keycloak/plugin/X509Tools.java:179 | keeps exactly the configurations that carry the custom-attribute key, the first one first when it carries it |
| X509Tools.FirstCustomAttributeConfigIsFirstInRealm | src/keycloak/plugin/src/main/java/com/defenseunicorns/uds/keycloak/plugin/X509Tools.java:179-183 | the first kept configuration is the first one in realm order carrying the key |
| X509Tools.FirstIdentityAsWritten | src/keycloak/plugin/src/main/java/com/defenseunicorns/uds/keycloak/plugin/X509Tools.java:179-183 | the stream as written throws exactly when a configuration carries the key and the first one's extraction is null |
| X509Tools.FirstIdentity | src/keycloak/plugin/src/main/java/com/defenseunicorns/uds/keycloak/plugin/X509Tools.java:179-183 | the intended stream step: null when no configuration carries the key; any identity it returns is extracted under the first configuration that does |
| X509Tools.FirstIdentityUsesFirstKeyedConfig | src/keycloak/plugin/src/main/java/com/defenseunicorns/uds/keycloak/plugin/X509Tools.java:179-183 | the intended stream step returns exactly the extraction under the first configuration of the realm that carries the custom-attribute key |
| X509Tools.FirstIdentityAgreesWhereSourceReturns | src/keycloak/plugin/src/main/java/com/defenseunicorns/uds/keycloak/plugin/X509Tools.java:179-183 | wherever the code as written returns, the corrected step returns the same value; where it throws, the corrected step returns null |
| X509Tools.NullExtractionThrows | src/keycloak/plugin/src/main/java/com/defenseunicorns/uds/keycloak/plugin/X509Tools.java:179-183 | one custom-attribute configuration whose extractor yields null makes the code as written throw |
| X509Tools.IdentityFromCertChain | src/keycloak/plugin/src/main/java/com/defenseunicorns/uds/keycloak/plugin/X509Tools.java:144-187 | null for a missing or empty chain and for a leaf without an accepted policy; with an accepted leaf, the corrected stream step over the realm's configurations, null for a realm without any (see ## Findings) |
| X509Tools.ScanLeafPolicies | src/keycloak/plugin/src/main/java/com/defenseunicorns/uds/keycloak/plugin/X509Tools.java:153-171 | the loop's flag equals the verdict; when it is set, the last slot read is accepted and every earlier one was readable and not accepted |
| X509Tools.GetX509IdentityFromCertChain | src/keycloak/plugin/src/main/java/com/defenseunicorns/uds/keycloak/plugin/X509Tools.java:144-187 | returns what IdentityFromCertChain states |
| X509Tools.GetX509Identity | src/keycloak/plugin/src/main/java/com/defenseunicorns/uds/keycloak/plugin/X509Tools.java:189-210 | null without a session, request, realm or lookup provider, or when the lookup throws; with all of them and a looked-up chain, exactly the identity from that chain |
| X509Tools.GetX509Username | src/keycloak/plugin/src/main/java/com/defenseunicorns/uds/keycloak/plugin/X509Tools.java:76-83 | the identity when it is present and not empty, null exactly otherwise |
| X509Tools.RegisteredOnlyWithAcceptedCertificate | src/keycloak/plugin/src/main/java/com/defenseunicorns/uds/keycloak/plugin/X509Tools.java:35-46 | a user is reported registered only for a request with a realm and a looked-up chain whose leaf has an accepted policy, and the search key is the non-empty identity a custom-attribute configuration extracts from that chain |
| Common.AnyMatchIsAccepted | src/keycloak/plugin/src/main/java/com/defenseunicorns/uds/keycloak/plugin/X509Tools.java:164 | the scan's `anyMatch` over REQUIRED_CERT_POLICIES holds exactly for the OIDs IsAcceptedPolicy accepts |
| Common.Distinct | src/keycloak/customization/plugin/src/main/java/com/defenseunicorns/uds/keycloak/plugin/Common.java:46-214 | keeps the same members, each once, and is never longer |
| Common.DistinctDropsRepeats | src/keycloak/customization/plugin/src/main/java/com/defenseunicorns/uds/keycloak/plugin/Common.java:46-214 | a list with a repeated entry loses length when its repetitions are dropped |
| Common.DodMediumHardwareIsAccepted | src/keycloak/customization/plugin/src/main/java/com/defenseunicorns/uds/keycloak/plugin/Common.java:49 | id-US-dod-mediumhardware is an accepted policy |
| Common.AcceptedIffInCatalog | src/keycloak/customization/plugin/src/main/java/com/defenseunicorns/uds/keycloak/plugin/Common.java:46-214 | an OID is accepted per issuing PKI exactly when it is in the flat list |
| Common.CatalogRepeatsCommonHardware | src/keycloak/customization/plugin/src/main/java/com/defenseunicorns/uds/keycloak/plugin/Common.java:78 | entries 30 and 40 of the list are both id-fpki-common-hardware |
| Common.CatalogRepetitionIsHarmless | src/keycloak/customization/plugin/src/main/java/com/defenseunicorns/uds/keycloak/plugin/Common.java:46-214 | the repeated entries do not change which OIDs are accepted |
| RegistrationValidation.MattermostUsernameErrors | src/keycloak/customization/plugin/src/main/java/com/defenseunicorns/uds/keycloak/plugin/RegistrationValidation.java:204-222 | no message for a blank username, at most three otherwise |
| RegistrationValidation.CharsetRule | src/keycloak/customization/plugin/src/main/java/com/defenseunicorns/uds/keycloak/plugin/RegistrationValidation.java:207-210 | the character-set message appears exactly when the username leaves [A-Za-z0-9-_.] |
| RegistrationValidation.FirstLetterRule | src/keycloak/customization/plugin/src/main/java/com/defenseunicorns/uds/keycloak/plugin/RegistrationValidation.java:213-215 | the first-letter message appears exactly when the first character is no letter |
| RegistrationValidation.LengthRule | src/keycloak/customization/plugin/src/main/java/com/defenseunicorns/uds/keycloak/plugin/RegistrationValidation.java:218-220 | the length message appears exactly when the username's Java length (UTF-16 units) is below 3 or above 22 |
| RegistrationValidation.UsernameAcceptedIff | src/keycloak/customization/plugin/src/main/java/com/defenseunicorns/uds/keycloak/plugin/RegistrationValidation.java:204-222 | a non-blank username draws no message exactly when it is 3 to 22 pattern characters beginning with an ASCII letter (its Java length is then its character count) |
| RegistrationValidation.AddIfBlank | src/keycloak/customization/plugin/src/main/java/com/defenseunicorns/uds/keycloak/plugin/RegistrationValidation.java:144-166 | appends the field's message to the list exactly when the field is blank |
| RegistrationValidation.CollectFieldErrors | src/keycloak/customization/plugin/src/main/java/com/defenseunicorns/uds/keycloak/plugin/RegistrationValidation.java:129-166 | the list after the username, name, affiliation, rank and organization checks, in that order |
| RegistrationValidation.CheckCac | src/keycloak/customization/plugin/src/main/java/com/defenseunicorns/uds/keycloak/plugin/RegistrationValidation.java:168-174 | an already registered CAC adds its message, logs INVALID_REGISTRATION and hands the list over; nothing else changes |
| RegistrationValidation.CheckEmail | src/keycloak/customization/plugin/src/main/java/com/defenseunicorns/uds/keycloak/plugin/RegistrationValidation.java:176-187 | an invalid address and an address in use each record a detail and add a message; an address in use switches the event error to EMAIL_IN_USE and is cleared from the form |
| RegistrationValidation.Validate | src/keycloak/customization/plugin/src/main/java/com/defenseunicorns/uds/keycloak/plugin/RegistrationValidation.java:124-196 | with any error, the context ends with every message, the redisplayed form and the logged event errors; with none, it succeeds; the details are recorded either way |
| RegistrationValidation.BlankUsernameReportsOnlyMissing | src/keycloak/customization/plugin/src/main/java/com/defenseunicorns/uds/keycloak/plugin/RegistrationValidation.java:136-141 | a blank username draws only the missing-username message |
| RegistrationValidation.RegistrationAcceptedIff | src/keycloak/customization/plugin/src/main/java/com/defenseunicorns/uds/keycloak/plugin/RegistrationValidation.java:124-196 | the form is accepted exactly when every field is present, the username passes, the CAC is not registered and the address is valid and unused |
| RegistrationValidation.RegisteredCacIsRejected | src/keycloak/customization/plugin/src/main/java/com/defenseunicorns/uds/keycloak/plugin/RegistrationValidation.java:169-174 | a registered CAC always adds its message and logs INVALID_REGISTRATION first of two event errors |
| RegistrationValidation.EmailInUseIsReported | src/keycloak/customization/plugin/src/main/java/com/defenseunicorns/uds/keycloak/plugin/RegistrationValidation.java:182-187 | an address in use is the last message, the last event error is EMAIL_IN_USE and the address is cleared from the form |
| RegistrationValidation.AsciiByte | src/keycloak/customization/plugin/src/main/java/com/defenseunicorns/uds/keycloak/plugin/RegistrationValidation.java:68 | every character becomes a byte value below 128, an ASCII character its own code |
| RegistrationValidation.ByteSumBounds | src/keycloak/customization/plugin/src/main/java/com/defenseunicorns/uds/keycloak/plugin/RegistrationValidation.java:68-71 | the byte total is between 0 and 127 times the length |
| RegistrationValidation.ByteSumAppend | src/keycloak/customization/plugin/src/main/java/com/defenseunicorns/uds/keycloak/plugin/RegistrationValidation.java:69-71 | the total of a concatenation is the sum of the totals |
| RegistrationValidation.SwappedPartsCollide | src/keycloak/customization/plugin/src/main/java/com/defenseunicorns/uds/keycloak/plugin/RegistrationValidation.java:69-75 | two addresses made of the same parts in another order get the same id |
| RegistrationValidation.EmailByteTotal | src/keycloak/customization/plugin/src/main/java/com/defenseunicorns/uds/keycloak/plugin/RegistrationValidation.java:64-71 | the loop's total is the byte sum of the address |
| RegistrationValidation.MattermostId | src/keycloak/customization/plugin/src/main/java/com/defenseunicorns/uds/keycloak/plugin/RegistrationValidation.java:73-75 | the id begins with the timestamp and is longer than it |
| RegistrationValidation.Success | src/keycloak/customization/plugin/src/main/java/com/defenseunicorns/uds/keycloak/plugin/RegistrationValidation.java:78-88 | stores the Mattermost id, binds the X.509 username when there is one, requires VERIFY_EMAIL always and CONFIGURE_TOTP only without one; without an e-mail field it throws and changes nothing |
| RegistrationValidation.ProcessX509UserAttribute | src/keycloak/customization/plugin/src/main/java/com/defenseunicorns/uds/keycloak/plugin/RegistrationValidation.java:44-50 | usercertificate is set to the username exactly when there is one; nothing else changes |
| RegistrationValidation.BindRequiredActions | src/keycloak/customization/plugin/src/main/java/com/defenseunicorns/uds/keycloak/plugin/RegistrationValidation.java:34-42 | VERIFY_EMAIL is added always, CONFIGURE_TOTP exactly when there is no X.509 username |
| RegistrationX509Password.WithoutPasswords | src/keycloak/customization/plugin/src/main/java/com/defenseunicorns/uds/keycloak/plugin/RegistrationX509Password.java:89-90 | both password fields are gone and every other field is kept |
| RegistrationX509Password.PasswordAcceptedIff | src/keycloak/customization/plugin/src/main/java/com/defenseunicorns/uds/keycloak/plugin/RegistrationX509Password.java:72-85 | a chosen password draws no message exactly when the confirmation equals it and the policy finds nothing |
| RegistrationX509Password.MismatchReportedFirst | src/keycloak/customization/plugin/src/main/java/com/defenseunicorns/uds/keycloak/plugin/RegistrationX509Password.java:72-75 | a confirmation that differs from the password is the first message, on the confirmation field |
| RegistrationX509Password.CollectPasswordErrors | src/keycloak/customization/plugin/src/main/java/com/defenseunicorns/uds/keycloak/plugin/RegistrationX509Password.java:72-85 | the list after the confirmation check and then the policy check |
| RegistrationX509Password.Validate | src/keycloak/customization/plugin/src/main/java/com/defenseunicorns/uds/keycloak/plugin/RegistrationX509Password.java:56-95 | without an X.509 username the standard validation runs and nothing else changes; otherwise register_method is recorded, a missing field throws, two empty fields succeed, and a chosen password succeeds or fails with INVALID_REGISTRATION and both fields cleared |
| RegistrationX509Password.Success | src/keycloak/customization/plugin/src/main/java/com/defenseunicorns/uds/keycloak/plugin/RegistrationX509Password.java:101-111 | the password is stored and CONFIGURE_TOTP required exactly without a CAC or with a non-empty password; with a CAC and no password field it throws and stores nothing |
| RegistrationX509Password.CacWithoutPasswordSkipsTotp | src/keycloak/customization/plugin/src/main/java/com/defenseunicorns/uds/keycloak/plugin/RegistrationX509Password.java:105-110 | with a CAC, an empty password stores nothing, and a password is stored exactly when it is not empty |
| UpdateX509.WithActiveCac | src/keycloak/plugin/src/main/java/com/defenseunicorns/uds/keycloak/plugin/UpdateX509.java:40 | activecac holds exactly the identity, or is absent when it is null; every other attribute is kept |
| UpdateX509.EvaluateTriggers | src/keycloak/plugin/src/main/java/com/defenseunicorns/uds/keycloak/plugin/UpdateX509.java:28-46 | nothing changes without an X.509 username or once IGNORE_X509 is "true"; otherwise activecac is set to the chain's identity and UPDATE_X509 is required exactly when the CAC is not registered |
| UpdateX509.ProcessAction | src/keycloak/plugin/src/main/java/com/defenseunicorns/uds/keycloak/plugin/UpdateX509.java:67-81 | a cancel notes IGNORE_X509 = "true" and binds nothing; otherwise usercertificate is bound to the username when there is one; the action succeeds either way |
| UpdateX509.CancelSuppressesTriggers | src/keycloak/plugin/src/main/java/com/defenseunicorns/uds/keycloak/plugin/UpdateX509.java:29-33 | after a cancel the triggers never apply again in the session |
| UpdateX509.NoCacNoTriggers | src/keycloak/plugin/src/main/java/com/defenseunicorns/uds/keycloak/plugin/UpdateX509.java:30-33 | without an X.509 username the triggers never apply |
| Crd.RemoteGeneratedNameInjective | src/pepr/operator/crd/generated/package-v1alpha1.ts:206-212 | distinct RemoteGenerated members have distinct enum texts |
| ControllerUtils.CollapseSeparators | src/pepr/operator/controllers/utils.ts:23 | every maximal run of characters outside `[a-z0-9]` becomes one '-': the result is over `[a-z0-9-]` with no two dashes in a row, never longer, empty exactly when the input is, and starts with '-' exactly when the input starts with a separator |
| ControllerUtils.SliceKeepsNameShape | src/pepr/operator/controllers/utils.ts:25 | cutting the collapsed name to 250 characters keeps it over `[a-z0-9-]` with single dashes |
| ControllerUtils.StripNonLetters | src/pepr/operator/controllers/utils.ts:27 | after removing leading and trailing non-letters the name is empty or starts and ends with a letter, and keeps its charset |
| ControllerUtils.SanitizeResourceName | src/pepr/operator/controllers/utils.ts:17-29 | the sanitized name is over `[a-z0-9-]`, has no doubled dash, is empty or begins and ends with a letter, and is at most 250 characters |
| ControllerUtils.ToLowerOfNameCharset | src/pepr/operator/controllers/utils.ts:21 | lower-casing leaves a name over `[a-z0-9-]` unchanged |
| ControllerUtils.CollapseOfCollapsed | src/pepr/operator/controllers/utils.ts:23 | collapsing an already collapsed name changes nothing |
| ControllerUtils.SanitizeIdempotent | src/pepr/operator/controllers/utils.ts:17-29 | sanitizing a sanitized name gives the same name |
| ControllerUtils.RetryWithDelay | src/pepr/operator/controllers/utils.ts:87-124 | the loop calls fn until one call resolves or the attempts run out, and ends as the reference run `Retry` over the same call outcomes: the value, the rethrown error, or the unreachable-loop error, with the same number of calls |
| ControllerUtils.RetryFromCalls | src/pepr/operator/controllers/utils.ts:94-101 | resumed after k failed calls, the loop makes more than k and at most `retries` calls and never falls out of the loop |
| ControllerUtils.RetryCallsBounded | src/pepr/operator/controllers/utils.ts:93-123 | with no attempt allowed fn is never called and the final error is thrown; otherwise fn is called between 1 and `retries` times and the final error is never reached |
| ControllerUtils.RetryFromFirstSuccess | src/pepr/operator/controllers/utils.ts:95-96 | resumed after j calls, the first later call that resolves gives the result, after k+1 calls in total |
| ControllerUtils.RetryFirstSuccess | src/pepr/operator/controllers/utils.ts:95-96 | the first call that resolves within the allowed attempts gives the result, after k+1 calls |
| ControllerUtils.RetryFromAllFail | src/pepr/operator/controllers/utils.ts:97-101 | resumed after j calls, when every remaining call rejects the last error is rethrown after exactly `retries` calls |
| ControllerUtils.RetryAllFail | src/pepr/operator/controllers/utils.ts:97-101 | when every allowed call rejects, the last call's error is rethrown after exactly `retries` calls |
| PodReload.ParseSelectorString | src/pepr/operator/controllers/reload/pod-reload.ts:85-107 | the loop over the comma-separated pairs gives exactly the reference parse `ParseSelector`: null at the first pair without key or value, otherwise the pairs stored in order, and null for an empty result |
| PodReload.MalformedEntryFrom | src/pepr/operator/controllers/reload/pod-reload.ts:95-100 | one malformed pair anywhere in the list makes the whole parse null |
| PodReload.MalformedPairRejects | src/pepr/operator/controllers/reload/pod-reload.ts:93-100 | a pair whose trimmed text lacks a key or a value (`"key"`, `"=v"`, `"k="`) makes parseSelectorString return null |
| PodReload.WellFormedEntriesFrom | src/pepr/operator/controllers/reload/pod-reload.ts:93-101 | when every pair parses, the result is an object with distinct keys where each key holds the value of the last pair that names it |
| PodReload.WellFormedSelector | src/pepr/operator/controllers/reload/pod-reload.ts:85-103 | every pair well formed gives a non-null selector with distinct keys holding the last value given to each |
| PodReload.FirstKeyKept | src/pepr/operator/controllers/reload/pod-reload.ts:103 | a well-formed selector string always has at least one key, so the empty-object null never applies to it |
| PodReload.ParseSelectorIff | src/pepr/operator/controllers/reload/pod-reload.ts:85-107 | the selector is null exactly when some pair lacks a key or a value; otherwise it maps each key to the value of the last pair naming it |
| PodReload.CacheKey | src/pepr/operator/controllers/reload/pod-reload.ts:167 | the cache key is the namespace, one '/', then the name |
| PodReload.CacheKeyInjective | src/pepr/operator/controllers/reload/pod-reload.ts:167 | because namespaces hold no '/', two resources with the same cache key have the same namespace and name |
| PodReload.PlanFor | src/pepr/operator/controllers/reload/pod-reload.ts:194-248 | with the data changed, a missing or empty `uds.dev/pod-reload-selector` annotation means auto-discovering consumers; a non-empty one that parses means reloading the pods it selects, and one that does not parse is an invalid-selector error with no reload |
| PodReload.ChecksumCache.constructor | src/pepr/operator/controllers/reload/pod-reload.ts:19-20 | a fresh cache is empty |
| PodReload.ChecksumCache.HandleResourceUpdate | src/pepr/operator/controllers/reload/pod-reload.ts:156-184 | a resource without name or namespace leaves the cache alone and reloads nothing; otherwise its checksum is stored under `namespace/name` whatever follows, and a reload is planned only when a non-empty previous checksum differs from the new one |
| PodReload.ChecksumCache.HandleResourceDelete | src/pepr/operator/controllers/reload/pod-reload.ts:288-301 | the `namespace/name` entry is removed and every other entry stays; a resource without name or namespace changes nothing |
| PodReload.RepeatedUpdate | src/pepr/operator/controllers/reload/pod-reload.ts:176-184 | an update that repeats the stored data never reloads |
| PodReload.DeleteThenUpdate | src/pepr/operator/controllers/reload/pod-reload.ts:176-300 | after a delete, the next update of that resource is a first sighting and never reloads |
| ExemptionStore.WithoutOwner | src/pepr/operator/controllers/exemptions/exemption-store.ts:72-74 | the filtered list holds exactly the matchers of other owners, in their order |
| ExemptionStore.AddMatcherTo | src/pepr/operator/controllers/exemptions/exemption-store.ts:34-42 | the owner-tagged matcher is appended to that policy's list and no other list changes; a policy the map lacks gets nothing, since the push goes to a throwaway [] |
| ExemptionStore.WithoutOwnerIdempotent | src/pepr/operator/controllers/exemptions/exemption-store.ts:72-74 | filtering an owner out twice is filtering it out once |
| ExemptionStore.WithoutOwnerAppend | src/pepr/operator/controllers/exemptions/exemption-store.ts:72-74 | filtering distributes over concatenation |
| ExemptionStore.WithoutOwnerNoop | src/pepr/operator/controllers/exemptions/exemption-store.ts:72-74 | a list without the owner's matchers is left unchanged |
| ExemptionStore.WithoutOwnerAllOwned | src/pepr/operator/controllers/exemptions/exemption-store.ts:72-74 | a list of only the owner's matchers filters to [] |
| ExemptionStore.NewForPoliciesOwned | src/pepr/operator/controllers/exemptions/exemption-store.ts:53-58 | every matcher one block adds for a policy carries the owner, and the block lists that policy |
| ExemptionStore.NewForOwned | src/pepr/operator/controllers/exemptions/exemption-store.ts:51-60 | every matcher an exemption adds for a policy carries the owner, and some block lists that policy |
| ExemptionStore.AddPoliciesAt | src/pepr/operator/controllers/exemptions/exemption-store.ts:53-58 | one block's loop keeps the set of policies and appends, to each, the block's matchers for it |
| ExemptionStore.AddEntriesAt | src/pepr/operator/controllers/exemptions/exemption-store.ts:51-60 | the outer add loop keeps the set of policies and appends to each the matchers the blocks list for it, block by block |
| ExemptionStore.RemovePoliciesAt | src/pepr/operator/controllers/exemptions/exemption-store.ts:70-76 | one block's remove loop filters the owner out of each listed policy, creating an entry for a listed policy the map lacked, and leaves the others alone |
| ExemptionStore.RemoveEntriesAt | src/pepr/operator/controllers/exemptions/exemption-store.ts:68-77 | the remove loop filters the owner out of every policy some block lists, and leaves the others alone |
| ExemptionStore.ReAddDoesNotDuplicate | src/pepr/operator/controllers/exemptions/exemption-store.ts:45-61 | removing an owner's matchers before pushing its new ones again yields no duplicates |
| ExemptionStore.RemoveOwnerAt | src/pepr/operator/controllers/exemptions/exemption-store.ts:63-83 | with every stored matcher accounted for by its owner's recorded exemption, filtering the policies that exemption lists removes the owner from every policy; an unknown owner owns nothing |
| ExemptionStore.RemoveKeepsAccounted | src/pepr/operator/controllers/exemptions/exemption-store.ts:63-83 | after the owner's matchers go, every remaining matcher is accounted for by the owners left |
| ExemptionStore.ExemptionStore.constructor | src/pepr/operator/controllers/exemptions/exemption-store.ts:15-16 | a new store has empty maps and is consistent |
| ExemptionStore.ExemptionStore.Init | src/pepr/operator/controllers/exemptions/exemption-store.ts:18-24 | init holds an empty list for exactly the given policies and no owners |
| ExemptionStore.ExemptionStore.GetByPolicy | src/pepr/operator/controllers/exemptions/exemption-store.ts:26-28 | the policy's stored matchers, or [] when it has none |
| ExemptionStore.ExemptionStore.AddMatcher | src/pepr/operator/controllers/exemptions/exemption-store.ts:34-42 | the store after addMatcher is the reference update `AddMatcherTo`; owners are untouched |
| ExemptionStore.ExemptionStore.AddBlock | src/pepr/operator/controllers/exemptions/exemption-store.ts:52-59 | the inner add loop gives the reference `AddPolicies` of the block's policies |
| ExemptionStore.ExemptionStore.RemoveBlock | src/pepr/operator/controllers/exemptions/exemption-store.ts:69-76 | the inner remove loop gives the reference `RemovePolicies` of the block's policies |
| ExemptionStore.ExemptionStore.Remove | src/pepr/operator/controllers/exemptions/exemption-store.ts:63-83 | a known owner is forgotten and its matchers filtered out of the policies its recorded exemption lists, which takes them out of every policy and keeps all others in order; an unknown owner changes nothing; consistency is kept |
| ExemptionStore.ExemptionStore.AddBlocks | src/pepr/operator/controllers/exemptions/exemption-store.ts:51-60 | the outer add loop gives the reference `AddEntries` |
| ExemptionStore.ExemptionStore.Add | src/pepr/operator/controllers/exemptions/exemption-store.ts:45-61 | the exemption is recorded for its owner, each policy keeps the other owners' matchers in order followed by this exemption's new matchers, and consistency is kept |
| ExemptionStore.AddTwice | src/pepr/operator/controllers/exemptions/exemption-store.ts:45-61 | adding an exemption a second time (a Modified watch event) leaves the store as adding it once |
| Authservice.OidcConfig.constructor | src/pepr/operator/controllers/keycloak/authservice/authservice.ts:234-246 | a default OIDC config starts without a Redis store and without a CA bundle |
| Authservice.BuildChain | src/pepr/operator/controllers/keycloak/authservice/authservice.ts:257-289 | a chain exists exactly when the client has a first redirect URI whose hostname parses (otherwise `new URL` throws); it carries the event's name, matches `:authority` on that hostname and has one filter whose client id and cookie prefix are the client id |
| Authservice.WithoutChain | src/pepr/operator/controllers/keycloak/authservice/authservice.ts:220-229 | the filter keeps exactly the chains of other names, each no more often than before |
| Authservice.AddChainIsSortedUpsert | src/pepr/operator/controllers/keycloak/authservice/authservice.ts:218-225 | after AddClient the chains are sorted by name, hold the new chain exactly once and no other chain of its name, and every other-named chain as often as before |
| Authservice.WithoutChainCount | src/pepr/operator/controllers/keycloak/authservice/authservice.ts:229 | RemoveClient keeps every other-named chain as often as it was there |
| Authservice.RemoveAbsentIsNoop | src/pepr/operator/controllers/keycloak/authservice/authservice.ts:229 | removing a name no chain has leaves the chains as they were |
| Authservice.RemoveKeepsSorted | src/pepr/operator/controllers/keycloak/authservice/authservice.ts:227-229 | filtering preserves the order, so sorted chains stay sorted without a re-sort |
| Authservice.AddThenRemove | src/pepr/operator/controllers/keycloak/authservice/authservice.ts:218-229 | adding and then removing a client leaves no chain of that name and keeps every other chain |
| Authservice.BuildConfig | src/pepr/operator/controllers/keycloak/authservice/authservice.ts:215-255 | AddClient replaces that name's chain and sorts, or fails when buildChain throws; RemoveClient filters the name out; UpdateGlobalConfig sets the Redis store and CA bundle when given and deletes them when empty, on the shared OIDC config, and keeps the chains; the other settings and the OIDC config object are those of the input |
| Egress.GetHostPortsProtocol | src/pepr/operator/controllers/istio/egress.ts:203-227 | null exactly when there is no non-empty remote host; otherwise the host, the protocol defaulting to TLS, and the ports taken from `ports` when given (even an empty list), else `[port]` when it is non-zero, else [443] |
| Egress.AddAllowEntry | src/pepr/operator/controllers/istio/egress.ts:80-105 | one turn of the allow loop creates the host's entry when missing and pushes each pair not yet listed, as the reference step `AddAllow` |
| Egress.CreateHostResourceMap | src/pepr/operator/controllers/istio/egress.ts:76-112 | the loop over the allow rules gives the reference `HostResourceMapOf`: the merged host map, or null when it has no key |
| Egress.PairsOfMembers | src/pepr/operator/controllers/istio/egress.ts:91-103 | a pair belongs to a host's ports exactly when it has the host's protocol and one of its ports |
| Egress.AddAllowAt | src/pepr/operator/controllers/istio/egress.ts:82-105 | after one rule a host has an entry iff it had one or the rule names it, and its pairs are the old ones followed by the missing new ones |
| Egress.CollectHostsKeys | src/pepr/operator/controllers/istio/egress.ts:79-106 | a host is in the map exactly when some allow rule names it |
| Egress.CollectHostsDistinct | src/pepr/operator/controllers/istio/egress.ts:93-103 | no (port, protocol) pair is listed twice for a host |
| Egress.CollectHostsPairs | src/pepr/operator/controllers/istio/egress.ts:79-106 | a host lists exactly the pairs some rule for that host contributes |
| Egress.CreateNullIffNoHost | src/pepr/operator/controllers/istio/egress.ts:108-111 | createHostResourceMap is null exactly when no allow rule has a remote host |
| Egress.CreateKeepsPairsUnique | src/pepr/operator/controllers/istio/egress.ts:93-103 | each host's list holds every pair some rule names for it, once, and no other |
| Egress.AddHostEntry | src/pepr/operator/controllers/istio/egress.ts:118-137 | one turn of the host loop creates the host's resource when missing, pushes the package id unless listed and each missing pair, as the reference step `AddHost` |
| Egress.AddPackageHosts | src/pepr/operator/controllers/istio/egress.ts:116-138 | the loop over one package's hosts gives the reference `AddPackage` |
| Egress.RemapEgressResources | src/pepr/operator/controllers/istio/egress.ts:114-141 | the loop over all packages gives the reference `Remap` |
| Egress.AddHostAt | src/pepr/operator/controllers/istio/egress.ts:120-137 | after one host entry a host has a resource iff it had one or is that host, with the package added once and the pairs merged |
| Egress.AddPackageKeys | src/pepr/operator/controllers/istio/egress.ts:118-138 | after one package a host has a resource iff it had one or the package names it |
| Egress.AddPackageDistinct | src/pepr/operator/controllers/istio/egress.ts:126-137 | one package keeps each host's package list and pair list free of repeats |
| Egress.AddPackagePackages | src/pepr/operator/controllers/istio/egress.ts:126-128 | after one package a host's packages are the old ones plus this package when it names the host |
| Egress.AddPackagePairs | src/pepr/operator/controllers/istio/egress.ts:129-137 | after one package a host's pairs are the old ones plus those the package lists for it |
| Egress.RemapKeys | src/pepr/operator/controllers/istio/egress.ts:116-139 | a host has an egress resource exactly when some package names it |
| Egress.RemapDistinct | src/pepr/operator/controllers/istio/egress.ts:126-137 | every host's package list and port/protocol list are free of repeats |
| Egress.RemapPackages | src/pepr/operator/controllers/istio/egress.ts:126-128 | a host's packages are exactly the packages naming it |
| Egress.RemapPairs | src/pepr/operator/controllers/istio/egress.ts:129-137 | a host's pairs are exactly those some package lists for it |
| Egress.RemapIsDistinctUnion | src/pepr/operator/controllers/istio/egress.ts:114-141 | per host, a distinct list of exactly the packages using it and a distinct list of exactly the pairs they list |
| AuthorizationPolicies.RulePorts | src/pepr/operator/controllers/network/authorizationPolicies.ts:73-79 | `port` first when it is defined (0 included), then every entry of `ports`; empty exactly when the rule has neither |
| AuthorizationPolicies.AllowSourceAdmits | src/pepr/operator/controllers/network/authorizationPolicies.ts:93-108 | a service-account rule admits exactly its principal; otherwise the principal is irrelevant and the rule admits only the package namespace for IntraNamespace, only the named remote namespace, every namespace but the package's for "*" or Anywhere, and only the package namespace otherwise |
| AuthorizationPolicies.AllowSource | src/pepr/operator/controllers/network/authorizationPolicies.ts:109-117 | a non-blank service account replaces the source with its principal `cluster.local/ns/<ns>/sa/<sa>`, in the remote namespace when one is set and the package namespace otherwise; without one the namespace source stands |
| AuthorizationPolicies.ExposeSourceAdmits | src/pepr/operator/controllers/network/authorizationPolicies.ts:84-90 | an expose rule admits callers from istio-admin-gateway for the admin gateway and from the package namespace otherwise |
| AuthorizationPolicies.FindSource | src/pepr/operator/controllers/network/authorizationPolicies.ts:33 | the index of the first group entry with this source, or -1 when none has it |
| AuthorizationPolicies.AddRuleToMerges | src/pepr/operator/controllers/network/authorizationPolicies.ts:32-39 | a group keeps one entry per source: the entry for the source holds exactly its old ports and the new ones, each once, a new source makes one more entry, and every other source keeps its entry and ports |
| AuthorizationPolicies.StripPodSuffix | src/pepr/operator/controllers/network/authorizationPolicies.ts:45-47 | a trailing "-pod" is removed and nothing else is changed |
| AuthorizationPolicies.DerivePolicyNameFromAppLabels | src/pepr/operator/controllers/network/authorizationPolicies.ts:43-50 | the policy name depends on the `app` and `app.kubernetes.io/name` labels and on nothing else of the selector |
| AuthorizationPolicies.DerivePolicyNameShape | src/pepr/operator/controllers/network/authorizationPolicies.ts:43-50 | with an `app` label the name is a prefix of it (the label without a trailing "-pod"); without one the name ends in "workload" |
| AuthorizationPolicies.ProcessRule | src/pepr/operator/controllers/network/authorizationPolicies.ts:72-130 | a portless rule is skipped; a rule with a selector joins that selector's group, created when missing; any other rule joins the namespace group; as the reference step `AddProcessed` |
| AuthorizationPolicies.GroupRules | src/pepr/operator/controllers/network/authorizationPolicies.ts:132-141 | the two loops group the processed allow rules, then the expose rules, as the reference `Collect` |
| AuthorizationPolicies.GenerateAuthorizationPolicies | src/pepr/operator/controllers/network/authorizationPolicies.ts:61-192 | the policies are the reference `Policies`: one per workload group, then the namespace policy when it has rules |
| AuthorizationPolicies.PortlessRuleSkipped | src/pepr/operator/controllers/network/authorizationPolicies.ts:80-82 | a rule without ports changes no group |
| AuthorizationPolicies.NsGroupIffSelectorless | src/pepr/operator/controllers/network/authorizationPolicies.ts:127-169 | the namespace group has rules exactly when some rule with ports has no selector |
| AuthorizationPolicies.WorkloadGroupsSpec | src/pepr/operator/controllers/network/authorizationPolicies.ts:119-126 | the workload groups have distinct selectors, exactly those of the rules with ports and a selector |
| AuthorizationPolicies.GroupsHaveDistinctSources | src/pepr/operator/controllers/network/authorizationPolicies.ts:32-39 | every group, workload or namespace, keeps one entry per source |
| AuthorizationPolicies.AddRuleToUnion | src/pepr/operator/controllers/network/authorizationPolicies.ts:34-35 | an existing source's ports become the union of its old ports and the new ones, in that order |
| AuthorizationPolicies.AddRuleToKeepsOthers | src/pepr/operator/controllers/network/authorizationPolicies.ts:32-39 | addRuleToGroup leaves every other source's entry as it was |
| AuthorizationPolicies.AddRuleToPorts | src/pepr/operator/controllers/network/authorizationPolicies.ts:32-39 | after addRuleToGroup a source lists a port exactly when it did or it is that rule's source and the port is new |
| AuthorizationPolicies.NsPortsAreMerged | src/pepr/operator/controllers/network/authorizationPolicies.ts:32-128 | rules with an identical source merge their ports: the namespace entry for a source lists a port exactly when some selector-less rule from that source lists it |
| AuthorizationPolicies.WorkloadPortsAreMerged | src/pepr/operator/controllers/network/authorizationPolicies.ts:32-126 | the same merge inside each selector's workload group |
| AuthorizationPolicies.PoliciesShape | src/pepr/operator/controllers/network/authorizationPolicies.ts:143-191 | one policy per workload group with that group's selector, then `protect-<pkg>-ns` without a selector exactly when some rule with ports has no selector |
| AuthorizationPolicies.PoliciesMetadata | src/pepr/operator/controllers/network/authorizationPolicies.ts:152-187 | every policy is a DENY policy in the package's namespace labelled with the package name and generation |
| NetworkGenerate.GenerateNamePrefix | src/pepr/operator/controllers/network/generate.ts:148-165 | the name always starts with the direction and '-', and with a description it is exactly the direction, '-' and the description |
| NetworkGenerate.GenerateNameWithoutDescription | src/pepr/operator/controllers/network/generate.ts:149-162 | without a description the name joins with '-' the selector's values (or "all pods"), then the remoteGenerated name when set, otherwise the remote namespace ("" when absent) and the remote selector's values joined with ',' |
| NetworkGenerate.GenerateNameExample | src/pepr/operator/controllers/network/generate.ts:153-162 | `Ingress` from app=a to namespace ns and pods x=b,y=c is named `Ingress-a-ns-b,c`: the nested remote values are written with ',' |
| NetworkGenerate.SelectorPeerNamespace | src/pepr/operator/controllers/network/generate.ts:48-67 | with a remote namespace and no remoteGenerated there is one peer whose namespace selector is `{}` exactly for "" or "*" and otherwise matches `kubernetes.io/metadata.name`; it has a pod selector exactly when a remote selector is set, and no IP block |
| NetworkGenerate.RemoteHostPeers | src/pepr/operator/controllers/network/generate.ts:68-78 | with nothing taking precedence, a remote host goes through the egress waypoint in Ambient mode and the egress gateway otherwise; no remote host means no peers |
| NetworkGenerate.RemoteGeneratedWins | src/pepr/operator/controllers/network/generate.ts:26-47 | remoteGenerated alone decides the peers, whatever else the rule says |
| NetworkGenerate.PolicyPortsOrder | src/pepr/operator/controllers/network/generate.ts:118-125 | the ports are the `ports` list in order followed by `port` when it is set and not 0 |
| NetworkGenerate.GenerateHasOneRule | src/pepr/operator/controllers/network/generate.ts:81-139 | the policy has exactly one rule, under `ingress` for an Ingress policy and under `egress` for an Egress one, holding the peers and ports; its type is the direction, its pods the rule's selector, its name generateName's and its namespace the given one |
| NetworkGenerate.GenerateLabels | src/pepr/operator/controllers/network/generate.ts:92-112 | the labels are the rule's, with `uds/generated` set to the remoteGenerated name exactly when one is given; the `uds/description` annotation is present exactly when the description is non-empty |
| Migrate.FindSso | src/pepr/operator/crd/migrate.ts:108 | a client returned has that id and no earlier client has it; none exactly when no client has it |
| Migrate.MigratePackage | src/pepr/operator/crd/migrate.ts:15-86 | every expose, allow and sso entry is migrated in place, in order and one for one, then the status is migrated; the metadata is untouched |
| Migrate.MigrateSecretFields | src/pepr/operator/crd/migrate.ts:49-79 | the sso loop body moves the four deprecated secret fields one after another, as the reference `MigrateSso` |
| Migrate.MigrateExposeMoves | src/pepr/operator/crd/migrate.ts:18-25 | a migrated expose rule has no `match`; a set `match` (even an empty array) is now `advancedHTTP.match` with the other advanced settings kept; nothing else changes; migrating again changes nothing |
| Migrate.MigrateAllowMoves | src/pepr/operator/crd/migrate.ts:29-41 | a migrated allow rule has no `podLabels` or `remotePodLabels`; each one that was set replaces `selector` or `remoteSelector`; nothing else changes; migrating again changes nothing |
| Migrate.MigrateSsoMoves | src/pepr/operator/crd/migrate.ts:49-79 | no deprecated secret field is left (an empty `secretName` aside); a field `secretConfig` already had keeps its value and a missing one takes the deprecated value; nothing else changes; migrating again changes nothing |
| Migrate.MigrateSsoNoop | src/pepr/operator/crd/migrate.ts:49 | an sso entry without deprecated secret fields is left as it is, `secretConfig` included |
| Migrate.BuildMigratedAuthserviceStatusSpec | src/pepr/operator/crd/migrate.ts:94-117 | undefined exactly when the list is absent or empty; client objects are returned as they are; each client id becomes an object with that id and the `enableAuthserviceSelector` of the first sso client with that id, or `{}` |
| Migrate.MigrateStatusIdempotent | src/pepr/operator/crd/migrate.ts:122-135 | a status migrated once is not changed by a second migration, whatever the sso list |
| Migrate.MigrateStatusKeepsOthers | src/pepr/operator/crd/migrate.ts:126-127 | the status migration changes only `authserviceClients` |
| Reconcilers.Reconciler.constructor | src/pepr/operator/reconcilers/index.ts:12 | a new operator instance has seen no uid |
| Reconcilers.Reconciler.ShouldSkip | src/pepr/operator/reconcilers/index.ts:23-50 | never skip a uid not seen before, nor a resource that is Retrying; otherwise skip exactly when it is Pending or its generation equals the observed generation |
| Reconcilers.Reconciler.UpdateStatus | src/pepr/operator/reconcilers/index.ts:58-72 | the patch carries the resource's name, namespace and the new status, and the uid is recorded once the patch has succeeded |
| Reconcilers.Reconciler.HandleFailure | src/pepr/operator/reconcilers/index.ts:112-153 | a 404 writes no status and records nothing; any other error patches the failure status and records the uid when the patch succeeds |
| Reconcilers.FailureStatusChoice | src/pepr/operator/reconcilers/index.ts:123-142 | with fewer than four retries made the status is Retrying with the attempt counted and no observed generation; otherwise Failed at the resource's generation with the counter reset to 0 |
| Reconcilers.FiveAttempts | src/pepr/operator/reconcilers/index.ts:125-142 | from a fresh resource, failures one to four leave it Retrying with that count and the fifth marks it Failed: four retries, five attempts in all |
| Reconcilers.FailuresCycle | src/pepr/operator/reconcilers/index.ts:125-142 | the counter reset after Failed starts the same five-attempt cycle again |
| PolicyCommon.TagStartFrom | src/pepr/policies/common.ts:86 | the leftmost position at or after `from` where `/[@:][^/]+$/` matches, or -1 when it matches nowhere there |
| PolicyCommon.StripTag | src/pepr/policies/common.ts:86 | removing the tag or digest leaves a prefix of the reference |
| PolicyCommon.FirstSegment | src/pepr/policies/common.ts:89-92 | the first `/`-separated part holds no `/` |
| PolicyCommon.ParseImageRef | src/pepr/policies/common.ts:77-125 | null for an empty or blank reference; every result has a registry without `/` and a non-empty repository |
| PolicyCommon.SegmentsJoin | src/pepr/policies/common.ts:89-103 | the first part, `/` and the rest rejoined give the untagged reference back; without `/` the first part is all of it |
| PolicyCommon.ParseUntaggedNone | src/pepr/policies/common.ts:99-108 | the parse is null exactly when the first part names a registry and nothing follows it |
| PolicyCommon.ParseUntaggedRegistry | src/pepr/policies/common.ts:99-108 | when the first part names a registry, it is the registry and the rest is the repository, which together give the reference back |
| PolicyCommon.ParseUntaggedDefault | src/pepr/policies/common.ts:109-118 | without a registry part the registry is docker.io and the repository the whole reference, with `library/` put in front when it has no `/` |
| PolicyCommon.StripTagUntagged | src/pepr/policies/common.ts:86 | a reference without `@` or `:` keeps all of its text |
| PolicyCommon.StripTagRemovesTag | src/pepr/policies/common.ts:86 | a `:tag` or `@digest` without `/` after an untagged name is removed entirely |
| PolicyCommon.StripTagIdempotent | src/pepr/policies/common.ts:86 | stripping the tag twice is stripping it once |
| PolicyCommon.ParseIgnoresTag | src/pepr/policies/common.ts:86-120 | a reference parses the same with or without its tag or digest |
| PolicyCommon.TrimmedAlready | src/pepr/policies/common.ts:82 | a reference that neither starts nor ends with whitespace is left alone by trim |
| PolicyCommon.ParseNginxUntagged | src/pepr/policies/common.ts:109-118 | `nginx` is docker.io's `library/nginx` |
| PolicyCommon.ParseBareName | src/pepr/policies/common.ts:77-125 | parseImageRef("nginx") is docker.io with repository `library/nginx` |
| PolicyCommon.ParseTaggedName | src/pepr/policies/common.ts:77-125 | parseImageRef("nginx:latest") is docker.io with repository `library/nginx` |
| PolicyCommon.ParseBlank | src/pepr/policies/common.ts:82-83 | a reference of only spaces is null |
| PolicyCommon.RegistryAndPath | src/pepr/policies/common.ts:99-108 | a registry host, `/` and a non-empty path parse to that registry and path |
| PolicyCommon.RegistryWithoutRepository | src/pepr/policies/common.ts:105-108 | a registry host alone is null |
| PolicyCommon.AuthorizedValues | src/pepr/policies/common.ts:179 | the authorised values kept are exactly the defined, non-empty ones, in order |
| PolicyCommon.AuthorizedValuesAppend | src/pepr/policies/common.ts:179 | filtering a concatenation filters each part |
| PolicyCommon.SecurityContextMessage | src/pepr/policies/common.ts:173-182 | the message starts with the text and `. Authorized: [`, and ends with `] Found: ` and the rendered violations, separated by a spaced vertical bar |
| PolicyCommon.UnsetAuthorizedOmitted | src/pepr/policies/common.ts:179 | an undefined or empty authorised value anywhere leaves the message as it was |
| PolicyCommon.AllAuthorizedListed | src/pepr/policies/common.ts:179 | with every value defined and non-empty, all of them are listed in order |
| PolicyCommon.KebabCaseJoinsWords | src/pepr/policies/common.ts:248-253 | the safe policy name is the lower-cased `-`-join of the words `split(/(?=[A-Z])/)` cuts the name into (SplitBeforeUpper: a cut before every upper-case letter but the first character) |
| PolicyCommon.UnquoteAll | src/pepr/policies/common.ts:262 | the elements parse exactly when each is a quoted plain string, and then give those strings |
| PolicyCommon.DecodeList | src/pepr/policies/common.ts:262 | JSON.parse of the stored array gives only plain strings |
| PolicyCommon.JoinSplit | src/pepr/policies/common.ts:262-267 | splitting at a separator that no part holds undoes joining with it |
| PolicyCommon.SplitAfterPrefix | src/pepr/policies/common.ts:262 | splitting text that begins with a part without the separator gives that part first |
| PolicyCommon.IndexAfterPrefix | src/pepr/policies/common.ts:262 | the first separator is just after such a part |
| PolicyCommon.DecodeEncode | src/pepr/policies/common.ts:262-267 | JSON.parse of JSON.stringify of a list of plain strings gives the list back |
| PolicyCommon.UnquoteAllQuoted | src/pepr/policies/common.ts:262-267 | quoting each plain string and reading the quotes back gives the strings |
| PolicyCommon.WithMutation | src/pepr/policies/common.ts:264-266 | the list afterwards holds the name; it is appended only when it is not there yet, and nothing else changes |
| PolicyCommon.MutateRequest.constructor | src/pepr/policies/common.ts:260 | a request carries the resource's annotations |
| PolicyCommon.MutateRequest.AnnotateMutation | src/pepr/policies/common.ts:255-268 | a stored value that does not parse throws and writes nothing; otherwise the annotation becomes the list with the kebab-cased policy name added once |
| PolicyCommon.KebabPlain | src/pepr/policies/common.ts:248-253 | a plain policy name stays plain once kebab-cased |
| PolicyCommon.AnnotatedList | src/pepr/policies/common.ts:255-268 | after annotateMutation the stored annotation reads back as the old list with the name added once |
| PolicyCommon.AnnotateIdempotent | src/pepr/policies/common.ts:255-268 | annotating twice for the same policy stores what annotating once does |
| RedirectUris.FilterRootPaths | src/pepr/operator/controllers/keycloak/redirect-uris-utils.ts:66-68 | the kept URIs are exactly those other than "/" and "/*"; the list is kept whole exactly when it has no root path |
| RedirectUris.FilterRootPathsIdempotent | src/pepr/operator/controllers/keycloak/redirect-uris-utils.ts:66-68 | filtering twice is filtering once |
| RedirectUris.FilterRootPathsAppend | src/pepr/operator/controllers/keycloak/redirect-uris-utils.ts:66-68 | filtering a concatenation filters each part |
| RedirectUris.RootOnlyGuard | src/pepr/operator/controllers/keycloak/redirect-uris-utils.ts:96 | `hasRootPaths && filterRootPaths(...).length === 0` holds exactly when the list is non-empty and every URI is a root path |
| RedirectUris.ProcessRedirectUris | src/pepr/operator/controllers/keycloak/redirect-uris-utils.ts:83-112 | the result is never empty, holds only the callback and the client's URIs, and holds the callback for an authservice client |
| RedirectUris.ProcessWithoutRealUris | src/pepr/operator/controllers/keycloak/redirect-uris-utils.ts:91-98 | no list, an empty list or root paths only gives the callback as the one URI |
| RedirectUris.ProcessKeepsClientUris | src/pepr/operator/controllers/keycloak/redirect-uris-utils.ts:100-111 | with one real URI the client's list is kept as it is, in order: unchanged for a non-authservice client, with the callback appended once for an authservice client that does not list it yet |
| RedirectUris.ProcessCallbackOnce | src/pepr/operator/controllers/keycloak/redirect-uris-utils.ts:102-107 | an authservice client's URIs hold the callback at most once when its own list did |
| RedirectUris.ProcessIdempotent | src/pepr/operator/controllers/keycloak/redirect-uris-utils.ts:83-112 | processing the processed list again changes nothing, unless the callback is itself a root path |
| RedirectUris.FindExposeFrom | src/pepr/operator/controllers/keycloak/redirect-uris-utils.ts:51-53 | the index of the first expose entry at or after `from` that matches the selector, or -1 |
| RedirectUris.FindMatchingExpose | src/pepr/operator/controllers/keycloak/redirect-uris-utils.ts:47-54 | the first expose entry whose selector agrees with every key asked for; none exactly when no entry matches |
| RedirectUris.EmptySelectorMatchesFirst | src/pepr/operator/controllers/keycloak/redirect-uris-utils.ts:52 | an empty selector matches the first entry, with or without a selector of its own |
| RedirectUris.UriHostnameFrom | src/pepr/operator/controllers/keycloak/redirect-uris-utils.ts:18-29 | the host name of some URI that is not a root path and parses; none exactly when no such URI parses |
| RedirectUris.ExtractHostname | src/pepr/operator/controllers/keycloak/redirect-uris-utils.ts:12-42 | the error is thrown only when no redirect URI gives a host name and, given expose entries and a selector, none of them matches |
| RedirectUris.ExtractHostnamePrefersUris | src/pepr/operator/controllers/keycloak/redirect-uris-utils.ts:19-27 | the first redirect URI that is not a root path and parses gives the host, before any expose entry |
| RedirectUris.UriHostnameFirst | src/pepr/operator/controllers/keycloak/redirect-uris-utils.ts:19-27 | the scan stops at the first URI that is not a root path and parses |
| RedirectUris.ExtractHostnameFallsBack | src/pepr/operator/controllers/keycloak/redirect-uris-utils.ts:31-41 | without a usable redirect URI the first expose entry matching the selector gives the host, and with none matching the error is thrown |
| DodCerts.CertKeyIgnoresBase | scripts/root-ca-retriever/dod-certs.ts:155-159 | a certificate under `<base>/dod/<rest>` has the key `/dod/<rest>/<file name>` whatever the base directory, so inventories unpacked in different places compare equal |
| DodCerts.LastWithKey | scripts/root-ca-retriever/dod-certs.ts:161-169 | the Map lookup gives a certificate with that key and no later certificate has it, and nothing exactly when no certificate has it |
| DodCerts.WithoutKeys | scripts/root-ca-retriever/dod-certs.ts:164-165 | the filter keeps each certificate whose key is not among the other side's keys, as often as it occurs, and drops the rest |
| DodCerts.ModifiedCerts | scripts/root-ca-retriever/dod-certs.ts:166-172 | every modified pair joins a downloaded certificate to the last stored certificate with its key (`existingMap.get`), whose content differs, and every downloaded certificate whose stored namesake has other content is paired with it |
| DodCerts.ModifiedCertsCount | scripts/root-ca-retriever/dod-certs.ts:166-172 | each downloaded certificate with a differing stored namesake appears on the new side of the pairs as often as it was downloaded, every other certificate never |
| DodCerts.NewCertsAreModifiedDownloads | scripts/root-ca-retriever/dod-certs.ts:166-172 | the new side of the modified pairs is exactly the downloaded list filtered to the certificates whose stored namesake has other content, in download order |
| DodCerts.WithoutKeysAppend | scripts/root-ca-retriever/dod-certs.ts:164-165 | the filter works piece by piece, so the kept certificates stay in their input order |
| DodCerts.ModifiedCertsAppend | scripts/root-ca-retriever/dod-certs.ts:166-172 | the pairs are found piece by piece, so they come in download order |
| DodCerts.DiffDoDCerts | scripts/root-ca-retriever/dod-certs.ts:153-175 | added are exactly the downloaded certificates whose key is not stored, removed exactly the stored ones whose key was not downloaded; multiplicity, order and the modified side are stated by WithoutKeys, ModifiedCertsCount and the append lemmas |
| DodCerts.AddedNotModified | scripts/root-ca-retriever/dod-certs.ts:164-172 | a modified certificate is never also counted as added or removed |
| DodCerts.SameInventoryNoDiff | scripts/root-ca-retriever/dod-certs.ts:153-175 | two inventories that agree certificate by certificate on key and content, identical or under different base directories, have nothing added, removed or modified (also scripts/root-ca-retriever/dod-certs.spec.ts:65-101; scripts/root-ca-retriever/dod-certs.spec.ts:252-277) |
| DodCerts.WithoutAllKeys | scripts/root-ca-retriever/dod-certs.ts:164-165 | nothing is left when every key is among those taken out |
| DodCerts.NothingModified | scripts/root-ca-retriever/dod-certs.ts:166-172 | nothing is modified when every downloaded certificate matches the content stored under its key |
| DodCerts.OneNewCertificateAdded | scripts/root-ca-retriever/dod-certs.ts:153-175 | the stored inventory downloaded again, possibly under another base directory, plus one certificate under a new key: the diff adds exactly that certificate and removes and modifies nothing (also scripts/root-ca-retriever/dod-certs.spec.ts:103-135) |
| DodCerts.OneCertificateRemoved | scripts/root-ca-retriever/dod-certs.ts:153-175 | the stored inventory plus one certificate whose key is no longer downloaded: the diff removes exactly that certificate and adds and modifies nothing (also scripts/root-ca-retriever/dod-certs.spec.ts:137-169) |
| DodCerts.OneCertificateModified | scripts/root-ca-retriever/dod-certs.ts:153-175 | one stored certificate downloaded again with other content: the diff holds exactly that old/new pair as modified and adds and removes nothing (also scripts/root-ca-retriever/dod-certs.spec.ts:171-197) |
| DodCerts.ModifiedCertsIgnoreOtherKey | scripts/root-ca-retriever/dod-certs.ts:161-172 | a stored certificate whose key nobody downloads does not change the modified pairs |
| DodCerts.IdenticalNoDiff | scripts/root-ca-retriever/dod-certs.ts:153-175 | comparing an inventory with itself finds nothing (also scripts/root-ca-retriever/dod-certs.spec.ts:65-101) |
| AuthservicePolicy.AddExemptionSpec | src/pepr/operator/controllers/keycloak/authservice/authorization-policy.ts:76-79 | one grouping step records a port exactly when the exemption has a non-empty port, and adds a path to that port exactly when it has a non-empty path |
| AuthservicePolicy.GroupFoldPorts | src/pepr/operator/controllers/keycloak/authservice/authorization-policy.ts:75-80 | after the grouping loop a port is present exactly when some exemption names it |
| AuthservicePolicy.GroupFoldPaths | src/pepr/operator/controllers/keycloak/authservice/authorization-policy.ts:75-80 | after the grouping loop a path is listed under a port exactly when some exemption names both |
| AuthservicePolicy.GroupByPortSpec | src/pepr/operator/controllers/keycloak/authservice/authorization-policy.ts:74-80 | the grouping holds a port exactly when an exemption names it, and a path under it exactly when an exemption names that port and path |
| AuthservicePolicy.GroupFoldDistinct | src/pepr/operator/controllers/keycloak/authservice/authorization-policy.ts:74-80 | the grouping keeps each port once, as a Map does |
| AuthservicePolicy.GroupFoldAppend | src/pepr/operator/controllers/keycloak/authservice/authorization-policy.ts:75-80 | grouping a concatenation continues from the grouping of its first part |
| AuthservicePolicy.PortlessIgnored | src/pepr/operator/controllers/keycloak/authservice/authorization-policy.ts:76 | an exemption without a port changes nothing |
| AuthservicePolicy.GroupExemptions | src/pepr/operator/controllers/keycloak/authservice/authorization-policy.ts:74-116 | the loop computes the grouping by port |
| AuthservicePolicy.BuildNonMetricsOperations | src/pepr/operator/controllers/keycloak/authservice/authorization-policy.ts:66-100 | the loop yields the non-metrics operations of the grouping |
| AuthservicePolicy.BuildMetricsOperations | src/pepr/operator/controllers/keycloak/authservice/authorization-policy.ts:105-129 | the loop yields the metrics operations of the grouping |
| AuthservicePolicy.NonMetricsShape | src/pepr/operator/controllers/keycloak/authservice/authorization-policy.ts:83-97 | one operation per exempted port excluding that port's paths, `/metrics` when it has none, then one operation for every port not exempted |
| AuthservicePolicy.MetricsShape | src/pepr/operator/controllers/keycloak/authservice/authorization-policy.ts:118-126 | one operation per exempted port naming exactly that port's paths, `/metrics` when it has none |
| AuthservicePolicy.NoExemptionsNoOperations | src/pepr/operator/controllers/keycloak/authservice/authorization-policy.ts:94-206 | both builders come out empty exactly when no exemption has a port |
| AuthservicePolicy.PolicyTarget | src/pepr/operator/controllers/keycloak/authservice/authorization-policy.ts:39-56 | exactly one of waypoint reference and pod selector is set; the waypoint Gateway exactly in ambient mode with a waypoint name |
| AuthservicePolicy.PolicySpec.constructor | src/pepr/operator/controllers/keycloak/authservice/authorization-policy.ts:163-177 | a spec starts with its rules and no target |
| AuthservicePolicy.PolicySpec.SetPolicyTarget | src/pepr/operator/controllers/keycloak/authservice/authorization-policy.ts:39-56 | the spec's target becomes the one PolicyTarget chooses and its rules are kept |
| AuthservicePolicy.AuthservicePolicyRule | src/pepr/operator/controllers/keycloak/authservice/authorization-policy.ts:131-181 | the CUSTOM policy for provider authservice has one rule for requests without an authorization header, limited to the non-metrics operations exactly when some exemption has a port |
| AuthservicePolicy.JwtAuthzRules | src/pepr/operator/controllers/keycloak/authservice/authorization-policy.ts:183-253 | the DENY policy has one rule for callers without a UDS token when nothing is exempted, otherwise a rule for the metrics operations sparing Prometheus and one for the non-metrics operations |
| AuthservicePolicy.PoliciesShareTarget | src/pepr/operator/controllers/keycloak/authservice/authorization-policy.ts:179-283 | the authservice policy, the JWT policy and the RequestAuthentication share one target |
| AuthservicePolicy.ComputeMonitorExemptions | src/pepr/operator/controllers/keycloak/authservice/authorization-policy.ts:389-407 | the loop yields the exemptions of the selected monitors in order |
| AuthservicePolicy.EmptySelectorExemptsAll | src/pepr/operator/controllers/keycloak/authservice/authorization-policy.ts:398-402 | an empty label selector exempts every monitor, one exemption each, in order |
| AuthservicePolicy.MonitorExemptionsMembers | src/pepr/operator/controllers/keycloak/authservice/authorization-policy.ts:396-403 | a monitor's exemption, its port as text and its path or `/metrics`, is present exactly when the monitor's pod selector, or its selector, carries every protected label |
| AuthservicePolicy.SidecarMetricsExempted | src/pepr/operator/controllers/keycloak/authservice/authorization-policy.ts:301-305 | outside ambient mode port 15020 is exempted with path `/stats/prometheus` |
| UptimeConfig.WithoutNamespace | src/pepr/operator/controllers/uptime/config.ts:57-61 | the filter keeps exactly the modules whose name does not start with `http_200x_sso_<namespace>_`, with names still distinct |
| UptimeConfig.WithoutNamespaceAppend | src/pepr/operator/controllers/uptime/config.ts:57-61 | the filter distributes over concatenation; with WithoutNamespaceSingle (one module is kept exactly when the namespace does not own it) the kept modules stay in their original order |
| UptimeConfig.WithoutNamespaceSingle | src/pepr/operator/controllers/uptime/config.ts:57-61 | a single module is kept exactly when its name does not start with the namespace's prefix |
| UptimeConfig.LastClientNamed | src/pepr/operator/controllers/uptime/config.ts:66-67 | the client whose module a name ends up holding is the last one generating that name, and none exactly when no client generates it |
| UptimeConfig.UpdateBlackboxConfig | src/pepr/operator/controllers/uptime/config.ts:42-111 | the loop assigns one module per probe client over the filtered modules and the result is sorted by name: the updated module set |
| UptimeConfig.DistinctGet | src/pepr/operator/controllers/uptime/config.ts:59-61 | with distinct names a lookup finds exactly the entries of the object |
| UptimeConfig.WithoutNamespaceGet | src/pepr/operator/controllers/uptime/config.ts:57-61 | filtering removes the namespace's own modules and leaves every other lookup as it was |
| UptimeConfig.WithProbeModulesGet | src/pepr/operator/controllers/uptime/config.ts:65-84 | after the loop a name holds the last matching client's module, with redirects off, the client's credentials and the realm's token URL, or what it held before |
| UptimeConfig.WithProbeModulesDistinct | src/pepr/operator/controllers/uptime/config.ts:65-84 | assigning by key keeps each module name once |
| UptimeConfig.DistinctOnce | src/pepr/operator/controllers/uptime/config.ts:59-61 | an object's entries occur once each |
| UptimeConfig.PermutationDistinct | src/pepr/operator/controllers/uptime/config.ts:86-89 | reordering the entries keeps the names distinct |
| UptimeConfig.PermutationGet | src/pepr/operator/controllers/uptime/config.ts:86-89 | sorting the entries changes no lookup |
| UptimeConfig.UpdatedModulesSpec | src/pepr/operator/controllers/uptime/config.ts:42-111 | the written modules are sorted by name with each name once; a client's module name holds the last such client's module, any other name with the namespace's prefix is gone, every other module is kept |
| UptimeConfig.NoClientsClearNamespace | src/pepr/operator/controllers/uptime/config.ts:40 | with no probe clients none of the namespace's SSO modules is left and nothing else changes (also src/pepr/operator/controllers/uptime/config.spec.ts:99-116) |
| UptimeConfig.EveryClientProbed | src/pepr/operator/controllers/uptime/config.ts:65-84 | each probe client gets its module, with its credentials and the token URL of `sso.<domain>`, unless a later client has the same id (also src/pepr/operator/controllers/uptime/config.spec.ts:74-97; src/pepr/operator/controllers/uptime/config.spec.ts:134-146) |
| UptimeConfig.LastClientAt | src/pepr/operator/controllers/uptime/config.ts:66-67 | a client no later client shares an id with is the one its module name ends up holding |
| UptimeConfig.PrefixesDisjoint | src/pepr/operator/controllers/uptime/config.ts:37-58 | for namespace names without underscores, no module of one namespace carries another namespace's prefix |
| UptimeConfig.OtherNamespacesPreserved | src/pepr/operator/controllers/uptime/config.ts:57-61 | updating one namespace keeps every SSO module of another namespace as it was (also src/pepr/operator/controllers/uptime/config.spec.ts:118-132) |
| UptimeConfig.BaseModulePreserved | src/pepr/operator/controllers/uptime/config.ts:19-61 | the base `http_2xx` module is never touched |
| Sorting.SortBy | src/pepr/operator/controllers/uptime/config.ts:86-89 | the entries come out ordered by name and are a permutation of those going in |
| Sorting.SortByStable | src/pepr/operator/controllers/keycloak/authservice/authservice.ts:224-225 | the sort is stable: entries with equal names keep their relative order, as Ramda's sortBy and Array.prototype.sort promise |
| Strings.LessEqTotal | src/pepr/operator/controllers/keycloak/authservice/authservice.ts:224-225 | the order of `<` on strings, lexicographic on UTF-16 code units, relates any two strings |
| Strings.LessEqTransitive | src/pepr/operator/controllers/keycloak/authservice/authservice.ts:224-225 | that order is transitive |
| Strings.LessEqAntisymmetric | src/pepr/operator/controllers/keycloak/authservice/authservice.ts:224-225 | two strings each at most the other are equal, because the UTF-16 encoding is injective |
| Strings.SupplementarySortsBeforeHighBmp | src/pepr/operator/controllers/keycloak/authservice/authservice.ts:224-225 | a character above U+FFFF (a surrogate pair) sorts before U+FF21, as in JavaScript and unlike code-point order |

## Left out

- Kubernetes API calls are not modelled because they are I/O: Get, Apply, PatchStatus, Delete, purgeOrphans, getOwnerRef, pod eviction and restarts, and writeEvent. Where a method's result depends on whether a call succeeded, that outcome is a boolean parameter (`patched`).
- Logging is not modelled.
- reconcileSharedEgressResources, applyEgressResources and removeEgressResources are not modelled. They apply cluster state and keep in-memory state between calls.
- discoverSecretConsumers and discoverConfigMapConsumers in pod-reload are not modelled because they are Kubernetes queries. PodReload.PlanFor returns the ReloadConsumers plan where the source runs them, and what they find is not modelled.
- computeResourceChecksum (SHA-256) is a parameter.
- The following are out of the model because they are concurrency and timing:
  - the debounce timers;
  - the updateConfig lock in authservice;
  - the Mutex in uptime config;
  - the delay between attempts of retryWithDelay.
- authservice(), purgeAuthserviceClients and reconcileAuthservice are not modelled. They are the I/O around buildConfig.
- Keycloak SPI plumbing is passed in as functions of `Keycloak.Platform` and `Keycloak.Realm`: sessions, events, the user-store search, e-mail validation, the password policy and the X.509 identity extractor.
- BouncyCastle ASN.1 and DER decoding is not modelled. A certificate is a sequence of policy slots, and each slot is readable, unreadable or holds an OID.
- Character.isLetter and String.toLowerCase are modelled exactly for ASCII. Non-ASCII letters go through a platform function, and non-ASCII characters do not change case.
- String.localeCompare is modelled as code-unit order, so the module sort in uptime config uses that order instead of the locale's collation. The chain sort in authservice uses `R.sortBy(R.prop("name"))`, which compares with `<` and is code-unit order in the source too.
- URL parsing in buildChain and in extractHostname is a parameter; `None` stands for a URL that does not parse.
- generateCallbackUri, defined in callback-uri.ts, is not part of this model. Its result is a parameter.
- JSON.stringify of a security-context violation is the `render` parameter of PolicyCommon.SecurityContextMessage. JSON.stringify and JSON.parse of the mutation annotation are modelled (PolicyCommon.EncodeList and PolicyCommon.DecodeList) only for arrays of plain strings, the form annotateMutation itself writes.
- base64 (atob and btoa) and the JSON encoding of the blackbox secret are not modelled. UptimeConfig.UpdateBlackboxConfig takes and returns the parsed modules.
- setupUptimeConfig is not modelled. It only creates the namespace and the secret.
- The UptimeConfig lemmas assume the stored modules have distinct names, as the keys of a parsed JSON object always do.
- UptimeConfig.PrefixesDisjoint and UptimeConfig.OtherNamespacesPreserved assume namespace names without `_`, as Kubernetes namespace names are.
- JavaScript objects are modelled as insertion-ordered lists. The rule that integer-like keys come first in Object.entries and Object.keys is not modelled; module names, host names and port texts are the keys here.
- An absent optional list (`?? []`) is modelled as the empty list.
- kubeAPI.ts and kubeNodes.ts are not part of this model. Their peers are parameters of the NetworkGenerate functions.
- PROMETHEUS_PRINCIPAL and UDSConfig.domain are parameters.
- The DoD inventory download, unpacking and file writing are I/O and not modelled; DodCerts compares inventories already read.
- validateIstioImage, isIstioInitContainer, isIstioProxyContainer and the policy checks in storage.ts and networking.ts are outside the modelled core of policies/common.ts.
- The other files the core uses are not part of this model: istio/namespace.ts, egress-sidecar.ts, egress-ambient.ts, package-validator.ts, public-certs.ts, client-sync.ts, prometheus/index.ts, ca-bundle.ts, network/policies.ts, package-store.ts and the renovate scripts.
- waypoint-utils.ts is not part of this model. Only its matchesLabels predicate is modelled, as AuthservicePolicy.MatchesLabels.
- UpdateX509.IsOneTimeAction: the model states only that the action is one-time. What Keycloak does with a one-time required action is platform behaviour and is not modelled.
- ExemptionStore.AddMatcher: an exemption for a policy not in the store is dropped. The source pushes it onto a fresh list that is never stored, and the model keeps that behaviour.

## Findings

| source | as written | input that shows it | evidently intended | confidence | as-written member | corrected member |
|---|---|---|---|---|---|---|
| src/keycloak/plugin/src/main/java/com/defenseunicorns/uds/keycloak/plugin/X509Tools.java:179-183 | `.map(...)` may yield null, and `.findFirst()` is then applied to a stream whose first element is null | a realm with one custom-attribute X.509 configuration whose extractor returns null for the chain; `findFirst` throws NullPointerException | return null when the extractor finds no identity, as the `.orElse(null)` suggests | not executed | X509Tools.FirstIdentityAsWritten | X509Tools.FirstIdentity |
