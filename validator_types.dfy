/** The values the authorization request validator works on: the client's
    configuration, the parameters of an authorization request, the grant the
    request resolves to, the authenticated user and session, and the outcome
    of a validation. Collaborators the validator calls (client directory,
    grant extraction, consent check, ACR resolution, token reader, ...) are
    function-typed fields of `Services`, with no behaviour of their own. */
module ValidatorTypes {
  import opened Common

  // Error codes surfaced to the caller.
  const INVALID_REQUEST := "invalid_request"
  const UNSUPPORTED_RESPONSE_TYPE := "unsupported_response_type"
  const INVALID_CLIENT := "invalid_client"
  const INVALID_AUTHORIZATION_DETAILS := "invalid_authorization_details"
  const INVALID_TARGET := "invalid_target"
  const LOGIN_REQUIRED := "login_required"

  // Authorization request parameter names named in error messages.
  const CLIENT_ID := "client_id"
  const RESPONSE_TYPE := "response_type"
  const SCOPE := "scope"
  const RESOURCE := "resource"
  const AUTHORIZATION_DETAILS := "authorization_details"
  const REDIRECT_URI := "redirect_uri"
  const NONCE := "nonce"
  const GRANT_MANAGEMENT_ACTION := "grant_management_action"

  /** The response type whose presence requires a nonce. */
  const ID_TOKEN := "id_token"
  /** The one scope a client never has to be granted explicitly. */
  const OPENID := "openid"

  // Values of the `prompt` parameter.
  const PROMPT_NONE := "none"
  const PROMPT_LOGIN := "login"
  const PROMPT_CONSENT := "consent"
  const PROMPT_SELECT_ACCOUNT := "select_account"

  // Grant management actions.
  const CREATE := "create"
  const MERGE := "merge"
  const REPLACE := "replace"
  const STANDARD_GRANT_MANAGEMENT_ACTIONS := [CREATE, MERGE, REPLACE]

  /** One rich authorization request entry; only its `type` is read here. */
  datatype AuthorizationDetail = AuthorizationDetail(detailType: string)

  /** Which token a requested claim is destined for. */
  datatype ClaimTarget = IdTokenClaim | UserInfoClaim

  /** A claim requested through the `claims` parameter. An absent `values`
      list and an empty one are treated alike by the validator. */
  datatype AuthorizedClaim = AuthorizedClaim(name: string, target: ClaimTarget, isEssential: bool, values: seq<string>)

  datatype UserClaim = UserClaim(claimType: string, value: string)

  datatype User = User(name: string, claims: seq<UserClaim>)

  /** An authenticated session; times are whole seconds. */
  datatype Session = Session(authenticationTime: int)

  datatype Client = Client(
    clientId: string,
    scopes: seq<string>,
    authorizationDataTypes: seq<string>,
    responseTypes: seq<string>,
    isRedirectUrlCaseSensitive: bool,
    defaultMaxAge: Option<int>,
    isConsentDisabled: bool,
    isResourceParameterRequired: bool)

  /** The normalized grant computed by the grant helper. */
  datatype GrantRequest = GrantRequest(scopes: seq<string>, audiences: seq<string>, authorizationDetails: seq<AuthorizationDetail>)

  /** An authentication context class and the methods it demands, in order. */
  datatype Acr = Acr(name: string, amrs: seq<string>)

  /** The part of a decoded `id_token_hint` the validator reads. */
  datatype IdToken = IdToken(subject: string, audiences: seq<string>)

  /** A registered response type handler, identified by its response type. */
  datatype ResponseTypeHandler = ResponseTypeHandler(responseType: string)

  /** The authorization request's parameters, as read by the request
      accessors; an absent string parameter is "". */
  datatype RequestData = RequestData(
    clientId: string,
    responseTypes: seq<string>,
    scopes: seq<string>,
    resources: seq<string>,
    authorizationDetails: seq<AuthorizationDetail>,
    nonce: string,
    redirectUri: string,
    responseMode: string,
    grantId: string,
    grantManagementAction: string,
    acrValues: seq<string>,
    prompt: string,
    claims: seq<AuthorizedClaim>,
    maxAge: Option<int>,
    idTokenHint: string)

  /** An OAuth error thrown by a collaborator: its code and its details. */
  datatype OAuthError = OAuthError(code: string, offenders: seq<string>)

  /** .NET exceptions that the validator lets escape untranslated. */
  datatype Exc = NullReference | EmptySequence

  /** The outcome of either validation phase. `Validated` ends the first
      phase, `Proceed` the second; the signals ask the caller to send the
      user to login, consent or account selection. */
  datatype Decision =
    | Validated(grant: GrantRequest, handlers: seq<ResponseTypeHandler>)
    | Proceed
    | Fail(code: string, offenders: seq<string>)
    | BadRedirectUri(uri: string)
    | LoginRequired(amr: Option<string>, sessionAbsent: bool)
    | ConsentRequired
    | SelectAccountRequired
    | AmrMissing(acr: string, first: string, all: seq<string>)
    | Unhandled(exc: Exc)

  /** The decision an OAuth error thrown by a collaborator amounts to. */
  function Raise(e: OAuthError): Decision {
    Fail(e.code, e.offenders)
  }

  /** A collaborator's check, as a validation step. */
  function Lift(c: Check<OAuthError>): (r: Check<Decision>)
    ensures r == Pass <==> c == Pass
    ensures r.Reject? ==> r.error == Raise(c.error)
  {
    match c
    case Pass => Pass
    case Reject(e) => Reject(Raise(e))
  }

  /** The collaborators and host configuration of the validator. */
  datatype Services = Services(
    // client directory: (realm, client id) to the client, if registered
    clients: (Option<string>, string) -> Option<Client>,
    // request-object expansion, which may rewrite the request's parameters
    extractRequest: (Client, RequestData) -> Result<RequestData, OAuthError>,
    // grant helper: (realm, scopes, resources, audiences seed, details)
    extractGrant: (string, seq<string>, seq<string>, seq<string>, seq<AuthorizationDetail>) -> Result<GrantRequest, OAuthError>,
    // structural check of OpenID credential authorization details
    validateOpenIdCredential: seq<AuthorizationDetail> -> Check<OAuthError>,
    redirectionUrls: Client -> seq<string>,
    // regular expression search: (pattern, input, case sensitive); true when
    // the pattern matches somewhere in the input
    matches: (string, string, bool) -> bool,
    responseTypeHandlers: seq<ResponseTypeHandler>,
    responseModes: seq<string>,
    grantManagementActionRequired: bool,
    defaultRealm: string,
    // consent check: (user, realm, client id, grant, claims, details)
    hasConsent: (User, Option<string>, string, GrantRequest, seq<AuthorizedClaim>, seq<AuthorizationDetail>) -> bool,
    // ACR resolution: (realm, acr values, claims, client), None when no ACR applies
    fetchDefaultAcr: (Option<string>, seq<string>, seq<AuthorizedClaim>, Client) -> Option<Acr>,
    // self-issued token reader: (realm, token) to the token or an error message
    readSelfIssuedToken: (Option<string>, string) -> Result<IdToken, string>,
    // the standard user claim names
    userClaimNames: seq<string>)
}
