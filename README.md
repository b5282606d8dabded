# Authorization decisions, CIBA token issuance and metadata translations

A Dafny model of three parts of an OAuth 2.0 / OpenID Connect authorization server.

- **The authorization request validator** (`AuthorizationRequestValidator`, with its types in `ValidatorTypes` and its theorems in `ValidatorProperties`). It covers both phases:
  - Before the user authenticates, it authenticates the client and binds it to the shared handler context. It lets the request-object expansion rewrite the request data. It then runs the fixed, short-circuiting sequence of checks:
    - response types;
    - the non-empty grant;
    - scopes;
    - authorization detail types;
    - OpenID credential details;
    - redirect URI, response mode and client response types;
    - redirect URI presence;
    - nonce;
    - resource;
    - grant-management action.
  - After the user authenticates, it checks, in order:
    - that a user and a session exist;
    - session freshness (`max_age`, else the client's default);
    - the `id_token_hint`;
    - `prompt`;
    - consent;
    - essential claims;
    - the default ACR's authentication methods.
  - Each check is a `Check<Decision>` value, and `Common.FirstReject` runs a list of them the way a sequence of throwing statements does. The context's mutation (`SetClient`, request data rewritten in place) is a class, `HandlerContext`, with `modifies` clauses. Everything after it is pure functions.
- **The CIBA token handler** (`CibaHandler`). It is imperative, over classes:
  - a token context (client, user, response parameters);
  - the backchannel request with its `sent` flag;
  - the backchannel request repository, with staged and committed records;
  - the handler itself, whose token builders run in a loop.

  `Handle` returns a ghost trace of the steps it took. This lets the order of the calls be stated, and shows that the request is marked sent and committed only after everything else succeeded.
- **The metadata result builder** (`Metadata`, theorems in `MetadataProperties`). It is a class with an enum registry. Its loops:
  - gather translation codes;
  - fill missing `(language, code)` translations with `"[code]"` placeholders;
  - build one record per enum and one child per member.

  Each loop is proved against a recursive specification function. The theorems cover:
  - preservation, coverage, at-most-once placeholders and idempotence of the default filling;
  - the shape of the built content;
  - coverage of every language;
  - language restriction when a supported language is requested.

Collaborators the source calls but does not define are uninterpreted function values:
- client directory, request-object expansion, grant helper, credential validator;
- redirection URLs, regular-expression match, consent check, ACR resolution, self-issued token reader;
- client authentication, the CIBA grant validator, token builders, token profiles and the base result builder.

Absent optional string parameters are `""`, and `IsBlank` plays the part of `string.IsNullOrWhiteSpace`. The current time is an integer number of seconds passed in as a parameter.

Where the design description and the code differ, the model follows the code. The design describes backchannel requests moving through pending, approved, denied, expired and completed states. In the handler the only state change is `Send()` setting the sent flag, and the rejection of expired, unapproved or already-sent requests happens inside the grant validator. So `validate` is an abstract function and `Handle` only sets `sent`.

## Model

| member | source | states |
|---|---|---|
| Common.FirstReject | src/IdServer/SimpleIdServer.IdServer/Api/Authorization/Validators/OAuthAuthorizationRequestValidator.cs:69-113 | a check sequence passes iff every check passes; otherwise its outcome is the first rejection, every earlier check having passed |
| AuthorizationRequestValidator.AuthenticateClient | src/IdServer/SimpleIdServer.IdServer/Api/Authorization/Validators/OAuthAuthorizationRequestValidator.cs:135-145 | a blank client id fails `invalid_request` naming `client_id` before any lookup; an unknown client fails `invalid_client` naming the id; success iff the id is non-blank and registered, returning the registered client |
| AuthorizationRequestValidator.SelectHandlers | src/IdServer/SimpleIdServer.IdServer/Api/Authorization/Validators/OAuthAuthorizationRequestValidator.cs:75 | the selected handlers are exactly the registered handlers whose response type was requested |
| AuthorizationRequestValidator.CheckResponseTypes | src/IdServer/SimpleIdServer.IdServer/Api/Authorization/Validators/OAuthAuthorizationRequestValidator.cs:71-78 | no response type fails `invalid_request`; otherwise passes iff every requested type has a handler, and fails `unsupported_response_type` listing exactly the unhandled types in request order |
| AuthorizationRequestValidator.CheckGrantNotEmpty | src/IdServer/SimpleIdServer.IdServer/Api/Authorization/Validators/OAuthAuthorizationRequestValidator.cs:85-86 | passes iff the grant has a scope, an audience or an authorization detail; otherwise `invalid_request` naming scope, resource and authorization_details |
| AuthorizationRequestValidator.CheckScopes | src/IdServer/SimpleIdServer.IdServer/Api/Authorization/Validators/OAuthAuthorizationRequestValidator.cs:88-90 | passes iff every granted scope other than `openid` is one of the client's; otherwise `invalid_request` listing exactly the offending scopes |
| AuthorizationRequestValidator.CheckAuthorizationDetails | src/IdServer/SimpleIdServer.IdServer/Api/Authorization/Validators/OAuthAuthorizationRequestValidator.cs:92-97 | a detail with a blank type fails first; passes iff every type is non-blank and allowed for the client; failures are `invalid_authorization_details` listing the unsupported types |
| AuthorizationRequestValidator.CommonValidate | src/IdServer/SimpleIdServer.IdServer/Api/Authorization/Validators/OAuthAuthorizationRequestValidator.cs:116-133 | the bad-redirect-URI outcome occurs iff the URI is non-blank and matches no registered pattern; passes iff the URI, response mode and client response types are all acceptable; the client-type failure lists the types the client lacks |
| AuthorizationRequestValidator.CheckRedirectUriPresent | src/IdServer/SimpleIdServer.IdServer/Api/Authorization/Validators/OAuthAuthorizationRequestValidator.cs:104-105 | passes iff the redirect URI is non-blank; otherwise `invalid_request` naming `redirect_uri` |
| AuthorizationRequestValidator.CheckNonce | src/IdServer/SimpleIdServer.IdServer/Api/Authorization/Validators/OAuthAuthorizationRequestValidator.cs:107-108 | passes iff `id_token` is not requested or the nonce is non-blank; otherwise `invalid_request` naming `nonce` |
| AuthorizationRequestValidator.CheckResource | src/IdServer/SimpleIdServer.IdServer/Api/Authorization/Validators/OAuthAuthorizationRequestValidator.cs:110-111 | passes iff the client does not require resources or some resource is given; otherwise `invalid_target` |
| AuthorizationRequestValidator.CheckGrantIdAndAction | src/IdServer/SimpleIdServer.IdServer/Api/Authorization/Validators/OAuthAuthorizationRequestValidator.cs:147-162 | passes iff a required action is present, a present action is standard, a grant id outside the consent screen is not combined with `create`, and a grant id comes with an action |
| AuthorizationRequestValidator.HandlerContext.ValidateAuthorizationRequest | src/IdServer/SimpleIdServer.IdServer/Api/Authorization/Validators/OAuthAuthorizationRequestValidator.cs:67-114 | the decision is the specification's; the context's client is set only when authentication succeeds and its data is replaced by the expanded request only when expansion succeeds |
| AuthorizationRequestValidator.HandlerContext.ValidateAuthorizationRequestFromRequest | src/IdServer/SimpleIdServer.IdServer/Api/Authorization/Validators/OAuthAuthorizationRequestValidator.cs:61-65 | validates with the client id read from the request data |
| AuthorizationRequestValidator.GetFirstAmr | src/IdServer/SimpleIdServer.IdServer/Api/Authorization/Validators/OAuthAuthorizationRequestValidator.cs:243-250 | no ACR gives no AMR; otherwise the ACR's first method; an ACR with no methods throws the empty-sequence exception |
| AuthorizationRequestValidator.ExtractIdTokenHint | src/IdServer/SimpleIdServer.IdServer/Api/Authorization/Validators/OAuthAuthorizationRequestValidator.cs:252-258 | fails `invalid_request` with the reader's error iff the reader fails; otherwise returns the decoded token |
| AuthorizationRequestValidator.CheckIdTokenHint | src/IdServer/SimpleIdServer.IdServer/Api/Authorization/Validators/OAuthAuthorizationRequestValidator.cs:196-204 | a blank hint passes; a readable hint passes iff its subject is the user's name and its audiences contain the issuer; failures are `invalid_request` |
| AuthorizationRequestValidator.RedirectToConsentView | src/IdServer/SimpleIdServer.IdServer/Api/Authorization/Validators/OAuthAuthorizationRequestValidator.cs:237-241 | passes iff consent is disabled for the client; otherwise signals consent required |
| AuthorizationRequestValidator.InvalidClaims | src/IdServer/SimpleIdServer.IdServer/Api/Authorization/Validators/OAuthAuthorizationRequestValidator.cs:225-226 | a name is listed iff some essential id-token claim with that name is a known user claim that the user does not carry with an accepted value |
| AuthorizationRequestValidator.CheckClaims | src/IdServer/SimpleIdServer.IdServer/Api/Authorization/Validators/OAuthAuthorizationRequestValidator.cs:223-229 | passes iff no requested claim is invalid; otherwise `invalid_request` listing every invalid claim name |
| AuthorizationRequestValidator.CheckAmrs | src/IdServer/SimpleIdServer.IdServer/Api/Authorization/Validators/OAuthAuthorizationRequestValidator.cs:231-234 | no ACR dereferences null; otherwise passes iff every ACR method was performed, and fails AMR-missing with the ACR name, the first missing method in ACR order and the full list |
| ValidatorProperties.BlankClientIdRejected | src/IdServer/SimpleIdServer.IdServer/Api/Authorization/Validators/OAuthAuthorizationRequestValidator.cs:137-138 | a blank client id makes the whole validation fail `invalid_request` naming `client_id` |
| ValidatorProperties.UnknownClientRejected | src/IdServer/SimpleIdServer.IdServer/Api/Authorization/Validators/OAuthAuthorizationRequestValidator.cs:140-142 | an unregistered client makes the whole validation fail `invalid_client` |
| ValidatorProperties.ResponseTypesDecideFirst | src/IdServer/SimpleIdServer.IdServer/Api/Authorization/Validators/OAuthAuthorizationRequestValidator.cs:71-78 | after client authentication, missing or unhandled response types decide the outcome before the grant is extracted |
| ValidatorProperties.GrantChecksPassIff | src/IdServer/SimpleIdServer.IdServer/Api/Authorization/Validators/OAuthAuthorizationRequestValidator.cs:85-113 | the checks after grant extraction all pass iff every rule on scopes, details, credentials, redirect URI, response mode, nonce, resource and grant action holds |
| ValidatorProperties.ValidatedIff | src/IdServer/SimpleIdServer.IdServer/Api/Authorization/Validators/OAuthAuthorizationRequestValidator.cs:71-114 | the request is validated iff response types are given and handled and every grant rule holds; the result then carries the extracted grant and exactly the requested handlers |
| ValidatorProperties.RequestValidatedIff | src/IdServer/SimpleIdServer.IdServer/Api/Authorization/Validators/OAuthAuthorizationRequestValidator.cs:61-145 | the whole first phase accepts iff the client id names a registered client, the request object expands, the grant resolves, and the expanded request passes every response-type and grant rule |
| ValidatorProperties.BadRedirectUriWins | src/IdServer/SimpleIdServer.IdServer/Api/Authorization/Validators/OAuthAuthorizationRequestValidator.cs:124-128 | once the earlier checks pass, an unmatched non-blank redirect URI yields the bad-redirect-URI outcome for that URI |
| ValidatorProperties.BlankRedirectUriIsMissingParameter | src/IdServer/SimpleIdServer.IdServer/Api/Authorization/Validators/OAuthAuthorizationRequestValidator.cs:104-105 | a blank redirect URI passes the pattern check but then fails `invalid_request` naming `redirect_uri` |
| ValidatorProperties.IdTokenNeedsNonce | src/IdServer/SimpleIdServer.IdServer/Api/Authorization/Validators/OAuthAuthorizationRequestValidator.cs:107-108 | requesting `id_token` without a nonce fails `invalid_request` naming `nonce` once the earlier checks pass |
| ValidatorProperties.GrantIdWithCreateRejected | src/IdServer/SimpleIdServer.IdServer/Api/Authorization/Validators/OAuthAuthorizationRequestValidator.cs:157-158 | a grant id with action `create` is rejected outside the consent screen and accepted from it |
| ValidatorProperties.NoUserNeedsLogin | src/IdServer/SimpleIdServer.IdServer/Api/Authorization/Validators/OAuthAuthorizationRequestValidator.cs:174-180 | without a user, `prompt=none` fails `login_required` and any other prompt signals login with the default ACR's first method |
| ValidatorProperties.NoSessionNeedsLogin | src/IdServer/SimpleIdServer.IdServer/Api/Authorization/Validators/OAuthAuthorizationRequestValidator.cs:182-184 | a user without a session gets the login signal flagged as session-absent |
| ValidatorProperties.LoginSignalHint | src/IdServer/SimpleIdServer.IdServer/Api/Authorization/Validators/OAuthAuthorizationRequestValidator.cs:243-250 | the login signal carries no method when no ACR applies, else the ACR's first method |
| ValidatorProperties.MaxAgeBoundary | src/IdServer/SimpleIdServer.IdServer/Api/Authorization/Validators/OAuthAuthorizationRequestValidator.cs:186-194 | a session is stale only strictly after authentication time plus `max_age`; the client default applies only when `max_age` is absent |
| ValidatorProperties.ExpiredNeedsLogin | src/IdServer/SimpleIdServer.IdServer/Api/Authorization/Validators/OAuthAuthorizationRequestValidator.cs:186-194 | with a user and a session, a session older than `max_age` (or, without one, the client default) signals login with the default ACR's first method, before any later step |
| ValidatorProperties.BadHintRejected | src/IdServer/SimpleIdServer.IdServer/Api/Authorization/Validators/OAuthAuthorizationRequestValidator.cs:196-204 | with a fresh session, an unreadable hint fails `invalid_request` with the reader's error, and a readable hint naming another subject or omitting this issuer fails `invalid_request` |
| ValidatorProperties.PromptForces | src/IdServer/SimpleIdServer.IdServer/Api/Authorization/Validators/OAuthAuthorizationRequestValidator.cs:206-215 | with a fresh session and an acceptable hint, `prompt=login` forces login, `select_account` forces account selection, and `consent` asks consent unless it is disabled |
| ValidatorProperties.MissingConsentAsksConsent | src/IdServer/SimpleIdServer.IdServer/Api/Authorization/Validators/OAuthAuthorizationRequestValidator.cs:217-221 | past the prompt, no grant management action and no recorded consent sends the user to the consent view unless the client disabled it |
| ValidatorProperties.InvalidClaimsRejected | src/IdServer/SimpleIdServer.IdServer/Api/Authorization/Validators/OAuthAuthorizationRequestValidator.cs:223-229 | past the interactions, an essential known id-token claim the user lacks fails `invalid_request` listing every such claim |
| ValidatorProperties.AmrChecked | src/IdServer/SimpleIdServer.IdServer/Api/Authorization/Validators/OAuthAuthorizationRequestValidator.cs:231-234 | past the claims, no default ACR is a null dereference, and an unperformed ACR method is reported AMR-missing with the ACR's name, its methods, and the first method in ACR order that was not performed |
| ValidatorProperties.PolicyRejectAt | src/IdServer/SimpleIdServer.IdServer/Api/Authorization/Validators/OAuthAuthorizationRequestValidator.cs:186-234 | when the rules of every earlier step hold, a rejecting step decides the outcome of the post-authentication steps |
| ValidatorProperties.ConsentDisabledNeverAsksConsent | src/IdServer/SimpleIdServer.IdServer/Api/Authorization/Validators/OAuthAuthorizationRequestValidator.cs:237-241 | a client with consent disabled is never sent to the consent view |
| ValidatorProperties.ProceedIff | src/IdServer/SimpleIdServer.IdServer/Api/Authorization/Validators/OAuthAuthorizationRequestValidator.cs:165-235 | the post-authentication phase lets the request through iff a user and session are bound, the session is fresh, the hint is accepted, no prompt or missing consent forces an interaction, every enforced claim is carried and every default-ACR method was performed |
| ValidatorProperties.PolicyPassIff | src/IdServer/SimpleIdServer.IdServer/Api/Authorization/Validators/OAuthAuthorizationRequestValidator.cs:186-234 | all six post-authentication steps pass iff all their rules hold |
| ValidatorProperties.PolicyAvoids | src/IdServer/SimpleIdServer.IdServer/Api/Authorization/Validators/OAuthAuthorizationRequestValidator.cs:165-235 | the post-authentication steps only ever reject with a login, an account selection, a failure, a missing authentication method, an unhandled error or, unless the client disabled it, consent; never with `Proceed` |
| ValidatorProperties.AmrMissingExample | src/IdServer/SimpleIdServer.IdServer/Api/Authorization/Validators/OAuthAuthorizationRequestValidator.cs:231-234 | an ACR demanding `pwd` then `otp`, met by `pwd` alone, reports `otp` as the first missing method |
| CibaHandler.ErrorResponse | src/OpenID/SimpleIdServer.OpenID/Api/Token/Handlers/CIBAHandler.cs:76-84 | an unauthorized exception maps to 401 and any other OAuth exception to 400, both keeping code and message |
| CibaHandler.FindUser | src/OpenID/SimpleIdServer.OpenID/Api/Token/Handlers/CIBAHandler.cs:61 | the bound user is the first stored user with the request's user id, or none iff no user has it |
| CibaHandler.SelectProfile | src/OpenID/SimpleIdServer.OpenID/Api/Token/Handlers/CIBAHandler.cs:66 | the profile is the first whose name is the client's preferred profile; none (an uncaught exception) iff no profile matches |
| CibaHandler.RunBuildersAppend | src/OpenID/SimpleIdServer.OpenID/Api/Token/Handlers/CIBAHandler.cs:63-64 | running builders in sequence composes: the second group runs on the first group's output, and a failure stops the rest |
| CibaHandler.MergeParameters | src/OpenID/SimpleIdServer.OpenID/Api/Token/Handlers/CIBAHandler.cs:68-69 | the merge succeeds iff no parameter name is already in the result, and then the payload is the result plus every parameter |
| CibaHandler.Merged | src/OpenID/SimpleIdServer.OpenID/Api/Token/Handlers/CIBAHandler.cs:67-69 | a successful merge has exactly the names of both parts and keeps each part's values |
| CibaHandler.BCAuthorize.Send | src/OpenID/SimpleIdServer.OpenID/Api/Token/Handlers/CIBAHandler.cs:71 | the request is marked sent |
| CibaHandler.BCAuthorizeRepository.Update | src/OpenID/SimpleIdServer.OpenID/Api/Token/Handlers/CIBAHandler.cs:72 | the request's state is staged and nothing is committed |
| CibaHandler.BCAuthorizeRepository.SaveChanges | src/OpenID/SimpleIdServer.OpenID/Api/Token/Handlers/CIBAHandler.cs:73 | the staged records are committed |
| CibaHandler.CIBAHandler.RunTokenBuilders | src/OpenID/SimpleIdServer.OpenID/Api/Token/Handlers/CIBAHandler.cs:63-64 | every builder runs in registration order over the same scopes, each on its predecessor's parameters; on success the context holds the final output, and when a builder throws it holds the output of the builders before it |
| CibaHandler.CIBAHandler.Redeem | src/OpenID/SimpleIdServer.OpenID/Api/Token/Handlers/CIBAHandler.cs:61-74 | binds the user with the request's id, issues tokens, and marks sent, stages and commits the request only on success and only after every other step; a failure leaves request and store unchanged; the response parameters end as the builders' output rewritten by the client's profile, or as the partial output when a builder throws |
| CibaHandler.CIBAHandler.Issue | src/OpenID/SimpleIdServer.OpenID/Api/Token/Handlers/CIBAHandler.cs:66-74 | from the builders' output: the matching profile rewrites the parameters, the merge into the base result decides the response, and only a successful merge marks the request sent and commits it, after every other step |
| CibaHandler.RedeemSteps | src/OpenID/SimpleIdServer.OpenID/Api/Token/Handlers/CIBAHandler.cs:61-74 | stopping after some builders, with or without the log entry, or before the commit is a proper prefix of the success order, and the commit steps complete it |
| CibaHandler.CIBAHandler.Handle | src/OpenID/SimpleIdServer.OpenID/Api/Token/Handlers/CIBAHandler.cs:54-85 | client authentication precedes binding the client, which precedes validation; the trace is the full success order iff tokens are returned, otherwise a prefix of it (plus a log entry for 400s) that never reaches the commit; a failed authentication leaves the context as it was, a failed validation leaves its user and parameters, and a validated request binds the user with the request's id; after a validated request, the response parameters are those the redemption leaves |
| CibaHandler.CIBAHandler.ValidateAndRedeem | src/OpenID/SimpleIdServer.OpenID/Api/Token/Handlers/CIBAHandler.cs:60-84 | for a bound client, validation precedes redemption; a failed validation answers with its error and changes neither the context's user and parameters nor the store, and a validated request is redeemed with its outcome and ordering, leaving the response parameters the redemption specifies |
| CibaHandler.OkPayload | src/OpenID/SimpleIdServer.OpenID/Api/Token/Handlers/CIBAHandler.cs:66-74 | the success payload is the base result plus every parameter as the client's preferred profile left them |
| Metadata.NatToStringRoundTrip | src/OpenID/SimpleIdServer.OpenID/Metadata/MetadataResultBuilder.cs:125 | reading back the decimal digits of a value gives the value |
| Metadata.IntToStringInjective | src/OpenID/SimpleIdServer.OpenID/Metadata/MetadataResultBuilder.cs:125 | two enum values print the same iff they are equal |
| Metadata.TranslationCodeInjective | src/OpenID/SimpleIdServer.OpenID/Metadata/MetadataResultBuilder.cs:123 | within an enum, two members share a code iff they share a name |
| Metadata.TranslationCodes | src/OpenID/SimpleIdServer.OpenID/Metadata/MetadataResultBuilder.cs:117-121 | one code per member, `{type}_{member}`, in the order the members are given (`Enum.GetNames` order) |
| Metadata.FillLanguageSpec | src/OpenID/SimpleIdServer.OpenID/Metadata/MetadataResultBuilder.cs:77-88 | one language's pass keeps what was there, covers every code in that language, and adds only placeholders for pairs that lacked one, each at most once |
| Metadata.FillDefaultsSpec | src/OpenID/SimpleIdServer.OpenID/Metadata/MetadataResultBuilder.cs:71-91 | the filling keeps every existing translation as a prefix, covers every (code, language) pair, and adds only placeholders for previously uncovered pairs, each at most once |
| Metadata.FillLanguageKeeps | src/OpenID/SimpleIdServer.OpenID/Metadata/MetadataResultBuilder.cs:77-79 | a pass over codes already translated into the language adds nothing |
| Metadata.FillDefaultsKeeps | src/OpenID/SimpleIdServer.OpenID/Metadata/MetadataResultBuilder.cs:75-79 | filling translations that already cover every pair adds nothing |
| Metadata.FillDefaultsIdempotent | src/OpenID/SimpleIdServer.OpenID/Metadata/MetadataResultBuilder.cs:79 | filling the defaults twice gives the same translations as filling them once |
| Metadata.ExactlyOnePlaceholder | src/OpenID/SimpleIdServer.OpenID/Metadata/MetadataResultBuilder.cs:79-86 | a pair with no existing translation gets exactly one, with value `"[code]"` |
| Metadata.SetDefaultValues | src/OpenID/SimpleIdServer.OpenID/Metadata/MetadataResultBuilder.cs:71-91 | the nested loops compute the filling: existing translations kept, every pair covered, only placeholders added, each pair at most once |
| Metadata.ChildTranslations | src/OpenID/SimpleIdServer.OpenID/Metadata/MetadataResultBuilder.cs:101-109 | the loop collects, in order, every translation whose key is the member's code |
| Metadata.BuildMetadataRecord | src/OpenID/SimpleIdServer.OpenID/Metadata/MetadataResultBuilder.cs:93-115 | the loop builds the enum's record as specified, throwing on a repeated child key |
| Metadata.CollectCodes | src/OpenID/SimpleIdServer.OpenID/Metadata/MetadataResultBuilder.cs:51-52 | the codes of every registered enum, in registry order |
| Metadata.BuildContent | src/OpenID/SimpleIdServer.OpenID/Metadata/MetadataResultBuilder.cs:64-65 | the loop adds one record per registered name, as specified |
| Metadata.MetadataResultBuilder.constructor | src/OpenID/SimpleIdServer.OpenID/Metadata/MetadataResultBuilder.cs:28-35 | a new builder has an empty registry |
| Metadata.MetadataResultBuilder.AddTranslatedEnum | src/OpenID/SimpleIdServer.OpenID/Metadata/MetadataResultBuilder.cs:37-41 | a new name is appended and the same builder returned; an already-registered name throws and leaves the registry unchanged; names stay distinct |
| Metadata.MetadataResultBuilder.Build | src/OpenID/SimpleIdServer.OpenID/Metadata/MetadataResultBuilder.cs:43-69 | the result is the specified build, which for an empty registry is empty content; a ghost flag set beside the store read records that the store is read iff something is registered |
| MetadataProperties.RecordOutcomeSucceeds | src/OpenID/SimpleIdServer.OpenID/Metadata/MetadataResultBuilder.cs:97-111 | an enum's record is built iff its member values are distinct |
| MetadataProperties.RecordOutcomeKeys | src/OpenID/SimpleIdServer.OpenID/Metadata/MetadataResultBuilder.cs:100-111 | the record's child keys are exactly the members' printed values |
| MetadataProperties.RecordOutcomeChildren | src/OpenID/SimpleIdServer.OpenID/Metadata/MetadataResultBuilder.cs:97-112 | the child under each member's value holds exactly the translations of that member's code |
| MetadataProperties.ContentOutcomeSucceeds | src/OpenID/SimpleIdServer.OpenID/Metadata/MetadataResultBuilder.cs:64-65 | the content is built iff the names are distinct and every record is built, and its keys are exactly the registered names |
| MetadataProperties.ContentOutcomeKeys | src/OpenID/SimpleIdServer.OpenID/Metadata/MetadataResultBuilder.cs:64-65 | a built content has exactly the registered names as keys |
| MetadataProperties.ContentOutcomeRecords | src/OpenID/SimpleIdServer.OpenID/Metadata/MetadataResultBuilder.cs:64-65 | each registered name maps to its enum's record |
| MetadataProperties.AllCodesHas | src/OpenID/SimpleIdServer.OpenID/Metadata/MetadataResultBuilder.cs:51-52 | the gathered codes include the code of every member of every registered enum |
| MetadataProperties.BuildSucceedsIff | src/OpenID/SimpleIdServer.OpenID/Metadata/MetadataResultBuilder.cs:43-69 | a build succeeds iff no name is registered twice and no enum repeats a value |
| MetadataProperties.BuildShape | src/OpenID/SimpleIdServer.OpenID/Metadata/MetadataResultBuilder.cs:64-65 | a built result has one entry per registered name and one child per member, holding that member's translations |
| MetadataProperties.ChildCovers | src/OpenID/SimpleIdServer.OpenID/Metadata/MetadataResultBuilder.cs:101-109 | a member's child has a translation in every language its code is translated into |
| MetadataProperties.BuildCoversEveryLanguage | src/OpenID/SimpleIdServer.OpenID/Metadata/MetadataResultBuilder.cs:55-65 | every member's child has a translation in the requested language when supported, otherwise in every supported culture |
| MetadataProperties.BuildUsesOnlyRequestedLanguage | src/OpenID/SimpleIdServer.OpenID/Metadata/MetadataResultBuilder.cs:55-59 | when the requested language is supported, every translation in the result is in that language |
| MetadataProperties.TranslationsInLanguage | src/OpenID/SimpleIdServer.OpenID/Metadata/MetadataResultBuilder.cs:55-59 | with a supported language, every translation read from the store or filled in is in that language |
| MetadataProperties.ChildInLanguage | src/OpenID/SimpleIdServer.OpenID/Metadata/MetadataResultBuilder.cs:101-109 | a member's child holds only translations it was given, so it stays in one language when they are |

## Left out

- Regular expressions: `Services.matches` is an abstract predicate of pattern, URI and case sensitivity, standing for an unanchored search. Invalid patterns throwing is not modelled.
- Time: `DateTime.UtcNow` is an integer `now` in seconds. `AddSeconds` overflow and sub-second precision are not modelled.
- Strings: `string.IsNullOrWhiteSpace` is modelled on the ASCII whitespace characters only.
- Absent values: absent strings are `""`, and absent lists (claims, claim values, authorization details) are empty lists.
- AuthorizationRequestValidator.CheckGrantNotEmpty, AuthorizationRequestValidator.CheckAuthorizationDetails: a null authorization-details list is not modelled. The source guards against null only in its blank-type check (OAuthAuthorizationRequestValidator.cs:92). The emptiness check at line 85 and the unsupported-type filter at line 95 would throw a null dereference on it. The request accessor that produces the list is not part of this model, so whether it can return null is not known here. The model treats the list as always present.
- Error messages: localized texts and the separators used to join offenders are not modelled. Errors carry a code and the list of offending items.
- Untranslated .NET exceptions (null dereference, `First` on an empty sequence, a duplicate dictionary key) are named outcomes rather than propagated exceptions.
- Collaborators as function values: client directory, grant helper, request-object expansion, credential validator, redirection URLs, consent check, ACR resolution, self-issued token reader, client authentication, CIBA grant validator, token builders, token profiles and the base result builder. Each is a function value without behaviour, and only OAuth exceptions are assumed to come out of them. The standard user claim names and the default realm are configuration values.
- The rejection of already-sent, expired or unapproved backchannel requests happens inside the CIBA grant validator, which is not part of this model.
- CibaHandler.MergeParameters: the duplicate-key exception does not carry the clashing name. The order in which dictionary entries are enumerated is not modelled.
- Asynchrony, cancellation, Entity Framework queries and transactions, HTTP result formatting and logging are not modelled. Logging appears only as a trace step.
- Enum reflection: an enum is a given name and sequence of `(name, value)` members. The member sequence is given in `Enum.GetNames` order, which .NET sorts by the members' underlying values taken as unsigned, not by declaration order. The model takes that order as input and does not compute it, and the printed value uses the invariant culture's minus sign.
- Dictionary enumeration of the registry follows insertion order, because the registry is a sequence.
- The translation store is a sequence queried by filtering.
- The unused `defaultLanguage` parameter of `BuildMetadataRecord` is omitted.
- The web UI store (`scopes` reducer) is user interface code with no protocol logic and is not part of this model.
