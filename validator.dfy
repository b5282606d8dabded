/** The authorization request validator: the checks run before the user is
    authenticated (client, response types, grant, scopes, authorization
    details, redirect URI, response mode, nonce, resource, grant management)
    and the policy applied once a user is bound to the request (session
    freshness, id_token_hint, prompt, consent, essential claims, ACR/AMR). */
module AuthorizationRequestValidator {
  import opened Common
  import opened ValidatorTypes

  // ---------------------------------------------------------------------
  // Before authentication
  // ---------------------------------------------------------------------

  /** Resolves the client: a blank id is rejected before the directory is
      consulted, an id the directory does not know is `invalid_client`. */
  function AuthenticateClient(s: Services, realm: Option<string>, clientId: string): (r: Result<Client, Decision>)
    ensures IsBlank(clientId) ==> r == Failure(Fail(INVALID_REQUEST, [CLIENT_ID]))
    ensures !IsBlank(clientId) && s.clients(realm, clientId).None? ==> r == Failure(Fail(INVALID_CLIENT, [clientId]))
    ensures r.Success? <==> !IsBlank(clientId) && s.clients(realm, clientId).Some?
    ensures r.Success? ==> s.clients(realm, clientId) == Some(r.value)
  {
    if IsBlank(clientId) then Failure(Fail(INVALID_REQUEST, [CLIENT_ID]))
    else match s.clients(realm, clientId)
      case None => Failure(Fail(INVALID_CLIENT, [clientId]))
      case Some(c) => Success(c)
  }

  /** Whether some registered handler serves `responseType`. */
  predicate IsHandled(handlers: seq<ResponseTypeHandler>, responseType: string) {
    exists i :: 0 <= i < |handlers| && handlers[i].responseType == responseType
  }

  /** The requested response types no registered handler serves, in request order. */
  function UnhandledResponseTypes(handlers: seq<ResponseTypeHandler>, requested: seq<string>): seq<string> {
    Filter(t => !IsHandled(handlers, t), requested)
  }

  /** The handlers whose response type was requested, in registration order. */
  function SelectHandlers(handlers: seq<ResponseTypeHandler>, requested: seq<string>): (r: seq<ResponseTypeHandler>)
    ensures forall i :: 0 <= i < |r| ==> r[i] in handlers && r[i].responseType in requested
    ensures forall h :: h in handlers && h.responseType in requested ==> h in r
  {
    Filter((h: ResponseTypeHandler) => h.responseType in requested, handlers)
  }

  /** At least one response type must be requested, and every requested one
      must be served by a registered handler. */
  function CheckResponseTypes(handlers: seq<ResponseTypeHandler>, requested: seq<string>): (r: Check<Decision>)
    ensures requested == [] ==> r == Reject(Fail(INVALID_REQUEST, [RESPONSE_TYPE]))
    ensures r == Pass <==> requested != [] && forall i :: 0 <= i < |requested| ==> IsHandled(handlers, requested[i])
    ensures requested != [] && r.Reject? ==>
      r.error == Fail(UNSUPPORTED_RESPONSE_TYPE, UnhandledResponseTypes(handlers, requested))
      && UnhandledResponseTypes(handlers, requested) != []
  {
    if requested == [] then Reject(Fail(INVALID_REQUEST, [RESPONSE_TYPE]))
    else
      var unsupported := UnhandledResponseTypes(handlers, requested);
      if unsupported != [] then
        assert unsupported[0] in requested && !IsHandled(handlers, unsupported[0]);
        Reject(Fail(UNSUPPORTED_RESPONSE_TYPE, unsupported))
      else
        Pass
  }

  /** The resolved grant must ask for something: a scope, an audience, or
      (in the request) an authorization detail. */
  function CheckGrantNotEmpty(grant: GrantRequest, details: seq<AuthorizationDetail>): (r: Check<Decision>)
    ensures r == Pass <==> grant.scopes != [] || grant.audiences != [] || details != []
    ensures r.Reject? ==> r.error == Fail(INVALID_REQUEST, [SCOPE + "," + RESOURCE + "," + AUTHORIZATION_DETAILS])
  {
    if grant.scopes == [] && grant.audiences == [] && details == [] then
      Reject(Fail(INVALID_REQUEST, [SCOPE + "," + RESOURCE + "," + AUTHORIZATION_DETAILS]))
    else Pass
  }

  /** The resolved scopes, other than `openid`, that the client was not granted. */
  function UnsupportedScopes(client: Client, grant: GrantRequest): seq<string> {
    Filter(sc => sc != OPENID && sc !in client.scopes, grant.scopes)
  }

  /** Every resolved scope except `openid` must be one of the client's. */
  function CheckScopes(client: Client, grant: GrantRequest): (r: Check<Decision>)
    ensures r == Pass <==> forall i :: 0 <= i < |grant.scopes| ==> grant.scopes[i] == OPENID || grant.scopes[i] in client.scopes
    ensures r.Reject? ==> r.error == Fail(INVALID_REQUEST, UnsupportedScopes(client, grant)) && UnsupportedScopes(client, grant) != []
  {
    var unsupported := UnsupportedScopes(client, grant);
    if unsupported != [] then
      assert unsupported[0] in grant.scopes;
      Reject(Fail(INVALID_REQUEST, unsupported))
    else
      Pass
  }

  /** The types of the details whose type the client does not allow, in order. */
  function UnsupportedDetailTypes(client: Client, details: seq<AuthorizationDetail>): seq<string> {
    MapSeq((d: AuthorizationDetail) => d.detailType, Filter((d: AuthorizationDetail) => d.detailType !in client.authorizationDataTypes, details))
  }

  /** Every authorization detail needs a non-blank type (checked first, over
      all details), and every type must be allowed for the client. */
  function CheckAuthorizationDetails(client: Client, details: seq<AuthorizationDetail>): (r: Check<Decision>)
    ensures (exists i :: 0 <= i < |details| && IsBlank(details[i].detailType)) ==>
      r == Reject(Fail(INVALID_AUTHORIZATION_DETAILS, []))
    ensures r == Pass <==> forall i :: 0 <= i < |details| ==>
      !IsBlank(details[i].detailType) && details[i].detailType in client.authorizationDataTypes
    ensures r.Reject? ==> r.error.Fail? && r.error.code == INVALID_AUTHORIZATION_DETAILS
    ensures (forall i :: 0 <= i < |details| ==> !IsBlank(details[i].detailType)) && r.Reject? ==>
      r.error == Fail(INVALID_AUTHORIZATION_DETAILS, UnsupportedDetailTypes(client, details))
      && UnsupportedDetailTypes(client, details) != []
    ensures r.Reject? && r.error.offenders != [] ==>
      r.error.offenders == UnsupportedDetailTypes(client, details)
      && forall i :: 0 <= i < |r.error.offenders| ==> r.error.offenders[i] !in client.authorizationDataTypes
  {
    if exists i :: 0 <= i < |details| && IsBlank(details[i].detailType) then
      Reject(Fail(INVALID_AUTHORIZATION_DETAILS, []))
    else
      var rejected := Filter((d: AuthorizationDetail) => d.detailType !in client.authorizationDataTypes, details);
      if rejected != [] then
        assert forall i :: 0 <= i < |rejected| ==> rejected[i].detailType !in client.authorizationDataTypes;
        Reject(Fail(INVALID_AUTHORIZATION_DETAILS, UnsupportedDetailTypes(client, details)))
      else
        Pass
  }

  /** Whether one of the client's redirection URL patterns matches somewhere
      in `uri` (an unanchored search), with the client's case sensitivity. */
  predicate RedirectUriAllowed(s: Services, client: Client, uri: string) {
    var urls := s.redirectionUrls(client);
    exists i :: 0 <= i < |urls| && s.matches(urls[i], uri, client.isRedirectUrlCaseSensitive)
  }

  /** The requested response types the client itself does not allow. */
  function ClientRejectedResponseTypes(client: Client, requested: seq<string>): seq<string> {
    Filter(t => t !in client.responseTypes, requested)
  }

  /** Redirect URI, response mode and client response types, in that order.
      A present redirect URI that no pattern matches raises the dedicated
      bad-redirect error whatever the response mode and response types are;
      a blank redirect URI is not judged here. */
  function CommonValidate(s: Services, client: Client, data: RequestData): (r: Check<Decision>)
    ensures r.Reject? && r.error.BadRedirectUri? <==> !IsBlank(data.redirectUri) && !RedirectUriAllowed(s, client, data.redirectUri)
    ensures r.Reject? && r.error.BadRedirectUri? ==> r.error.uri == data.redirectUri
    ensures r == Pass <==>
      && (IsBlank(data.redirectUri) || RedirectUriAllowed(s, client, data.redirectUri))
      && (IsBlank(data.responseMode) || data.responseMode in s.responseModes)
      && forall i :: 0 <= i < |data.responseTypes| ==> data.responseTypes[i] in client.responseTypes
    ensures r.Reject? && r.error.Fail? && r.error.code == UNSUPPORTED_RESPONSE_TYPE ==>
      r.error.offenders == ClientRejectedResponseTypes(client, data.responseTypes)
      && (IsBlank(data.responseMode) || data.responseMode in s.responseModes)
    ensures r.Reject? && !r.error.BadRedirectUri? ==>
      || (!IsBlank(data.responseMode) && data.responseMode !in s.responseModes && r.error == Fail(INVALID_REQUEST, [data.responseMode]))
      || (r.error.Fail? && r.error.code == UNSUPPORTED_RESPONSE_TYPE)
  {
    var unsupported := ClientRejectedResponseTypes(client, data.responseTypes);
    if !IsBlank(data.redirectUri) && !RedirectUriAllowed(s, client, data.redirectUri) then
      Reject(BadRedirectUri(data.redirectUri))
    else if !IsBlank(data.responseMode) && data.responseMode !in s.responseModes then
      Reject(Fail(INVALID_REQUEST, [data.responseMode]))
    else if unsupported != [] then
      assert unsupported[0] in data.responseTypes;
      Reject(Fail(UNSUPPORTED_RESPONSE_TYPE, unsupported))
    else
      Pass
  }

  /** A redirect URI is mandatory. */
  function CheckRedirectUriPresent(data: RequestData): (r: Check<Decision>)
    ensures r == Pass <==> !IsBlank(data.redirectUri)
    ensures r.Reject? ==> r.error == Fail(INVALID_REQUEST, [REDIRECT_URI])
  {
    if IsBlank(data.redirectUri) then Reject(Fail(INVALID_REQUEST, [REDIRECT_URI])) else Pass
  }

  /** Requesting an `id_token` response requires a nonce. */
  function CheckNonce(data: RequestData): (r: Check<Decision>)
    ensures r == Pass <==> ID_TOKEN !in data.responseTypes || !IsBlank(data.nonce)
    ensures r.Reject? ==> r.error == Fail(INVALID_REQUEST, [NONCE])
  {
    if ID_TOKEN in data.responseTypes && IsBlank(data.nonce) then Reject(Fail(INVALID_REQUEST, [NONCE])) else Pass
  }

  /** A client that requires resource indicators must get at least one. */
  function CheckResource(client: Client, data: RequestData): (r: Check<Decision>)
    ensures r == Pass <==> !client.isResourceParameterRequired || data.resources != []
    ensures r.Reject? ==> r.error == Fail(INVALID_TARGET, [RESOURCE])
  {
    if client.isResourceParameterRequired && data.resources == [] then Reject(Fail(INVALID_TARGET, [RESOURCE])) else Pass
  }

  /** The grant management rules: an action when the host requires one, only
      standard actions, no grant id with `create` unless the request comes
      back from the consent screen, and no grant id without an action. */
  function CheckGrantIdAndAction(s: Services, data: RequestData, fromConsentScreen: bool): (r: Check<Decision>)
    ensures r == Pass <==>
      && (s.grantManagementActionRequired ==> !IsBlank(data.grantManagementAction))
      && (IsBlank(data.grantManagementAction) || data.grantManagementAction in STANDARD_GRANT_MANAGEMENT_ACTIONS)
      && (IsBlank(data.grantId) || (!IsBlank(data.grantManagementAction) && (fromConsentScreen || data.grantManagementAction != CREATE)))
    ensures r.Reject? ==> r.error.Fail? && r.error.code == INVALID_REQUEST
  {
    var action := data.grantManagementAction;
    if s.grantManagementActionRequired && IsBlank(action) then Reject(Fail(INVALID_REQUEST, [GRANT_MANAGEMENT_ACTION]))
    else if !IsBlank(action) && action !in STANDARD_GRANT_MANAGEMENT_ACTIONS then Reject(Fail(INVALID_REQUEST, [action]))
    else if !fromConsentScreen && !IsBlank(data.grantId) && action == CREATE then Reject(Fail(INVALID_REQUEST, []))
    else if !IsBlank(data.grantId) && IsBlank(action) then Reject(Fail(INVALID_REQUEST, [GRANT_MANAGEMENT_ACTION]))
    else Pass
  }

  /** The checks that follow grant extraction, in the order they run. */
  function GrantChecks(s: Services, client: Client, data: RequestData, grant: GrantRequest, fromConsentScreen: bool): seq<Check<Decision>> {
    [ CheckGrantNotEmpty(grant, data.authorizationDetails),
      CheckScopes(client, grant),
      CheckAuthorizationDetails(client, data.authorizationDetails),
      Lift(s.validateOpenIdCredential(data.authorizationDetails)),
      CommonValidate(s, client, data),
      CheckRedirectUriPresent(data),
      CheckNonce(data),
      CheckResource(client, data),
      CheckGrantIdAndAction(s, data, fromConsentScreen) ]
  }

  /** `context.Realm ?? DefaultRealm`. */
  function RealmOrDefault(s: Services, realm: Option<string>): string {
    match realm
    case Some(r) => r
    case None => s.defaultRealm
  }

  /** Validation of the request once the client is known and the request
      object has been expanded. */
  function ValidateExtracted(s: Services, realm: Option<string>, client: Client, data: RequestData, fromConsentScreen: bool): Decision {
    var responseTypes := CheckResponseTypes(s.responseTypeHandlers, data.responseTypes);
    if responseTypes.Reject? then responseTypes.error
    else match s.extractGrant(RealmOrDefault(s, realm), data.scopes, data.resources, [], data.authorizationDetails)
      case Failure(e) => Raise(e)
      case Success(grant) =>
        var checks := FirstReject(GrantChecks(s, client, data, grant, fromConsentScreen));
        if checks.Reject? then checks.error
        else Validated(grant, SelectHandlers(s.responseTypeHandlers, data.responseTypes))
  }

  /** The whole first phase, as a function of the request before the
      request object is expanded. */
  function ValidateAuthorizationRequestSpec(s: Services, realm: Option<string>, clientId: string, data: RequestData, fromConsentScreen: bool): Decision {
    match AuthenticateClient(s, realm, clientId)
    case Failure(e) => e
    case Success(client) =>
      match s.extractRequest(client, data)
      case Failure(e) => Raise(e)
      case Success(expanded) => ValidateExtracted(s, realm, client, expanded, fromConsentScreen)
  }

  // ---------------------------------------------------------------------
  // The per-request context
  // ---------------------------------------------------------------------

  /** The request context the validator reads and, in its first phase,
      updates: it binds the authenticated client and lets the request-object
      helper rewrite the request's parameters. */
  class HandlerContext {
    const realm: Option<string>
    const fromConsentScreen: bool
    const user: Option<User>
    const session: Option<Session>
    /** The authentication methods the current authentication satisfied. */
    const amrs: seq<string>
    const issuer: string
    var data: RequestData
    var client: Option<Client>

    constructor (realm: Option<string>, fromConsentScreen: bool, user: Option<User>, session: Option<Session>,
                 amrs: seq<string>, issuer: string, data: RequestData)
      ensures this.realm == realm && this.fromConsentScreen == fromConsentScreen
      ensures this.user == user && this.session == session && this.amrs == amrs && this.issuer == issuer
      ensures this.data == data && this.client == None
    {
      this.realm := realm;
      this.fromConsentScreen := fromConsentScreen;
      this.user := user;
      this.session := session;
      this.amrs := amrs;
      this.issuer := issuer;
      this.data := data;
      this.client := None;
    }

    /** First phase for an explicit client id. The client is bound as soon
        as it is authenticated, the expanded request replaces the original
        one, and the outcome is that of the pure specification. */
    method ValidateAuthorizationRequest(s: Services, clientId: string) returns (d: Decision)
      modifies this
      ensures d == ValidateAuthorizationRequestSpec(s, realm, clientId, old(data), fromConsentScreen)
      ensures AuthenticateClient(s, realm, clientId).Failure? ==> client == old(client) && data == old(data)
      ensures AuthenticateClient(s, realm, clientId).Success? ==>
        var c := AuthenticateClient(s, realm, clientId).value;
        && client == Some(c)
        && data == (match s.extractRequest(c, old(data)) case Success(e) => e case Failure(_) => old(data))
    {
      var auth := AuthenticateClient(s, realm, clientId);
      if auth.Failure? {
        return auth.error;
      }
      client := Some(auth.value);
      var expanded := s.extractRequest(auth.value, data);
      if expanded.Failure? {
        return Raise(expanded.error);
      }
      data := expanded.value;
      d := ValidateExtracted(s, realm, auth.value, data, fromConsentScreen);
    }

    /** First phase with the client id read from the request. */
    method ValidateAuthorizationRequestFromRequest(s: Services) returns (d: Decision)
      modifies this
      ensures d == ValidateAuthorizationRequestSpec(s, realm, old(data).clientId, old(data), fromConsentScreen)
      ensures AuthenticateClient(s, realm, old(data).clientId).Failure? ==> client == old(client) && data == old(data)
      ensures AuthenticateClient(s, realm, old(data).clientId).Success? ==>
        var c := AuthenticateClient(s, realm, old(data).clientId).value;
        && client == Some(c)
        && data == (match s.extractRequest(c, old(data)) case Success(e) => e case Failure(_) => old(data))
    {
      d := ValidateAuthorizationRequest(s, data.clientId);
    }
  }

  // ---------------------------------------------------------------------
  // After authentication
  // ---------------------------------------------------------------------

  /** The first authentication method of the default ACR: none when no ACR
      applies, and `First()` on an empty method list throws. */
  function GetFirstAmr(s: Services, realm: Option<string>, acrValues: seq<string>, claims: seq<AuthorizedClaim>, client: Client): (r: Result<Option<string>, Exc>)
    ensures s.fetchDefaultAcr(realm, acrValues, claims, client).None? ==> r == Success(None)
    ensures r.Success? && r.value.Some? ==>
      var acr := s.fetchDefaultAcr(realm, acrValues, claims, client);
      acr.Some? && acr.value.amrs != [] && r.value.value == acr.value.amrs[0]
    ensures var acr := s.fetchDefaultAcr(realm, acrValues, claims, client);
      acr.Some? && acr.value.amrs != [] ==> r == Success(Some(acr.value.amrs[0]))
    ensures r.Failure? <==> s.fetchDefaultAcr(realm, acrValues, claims, client).Some? && s.fetchDefaultAcr(realm, acrValues, claims, client).value.amrs == []
    ensures r.Failure? ==> r.error == EmptySequence
  {
    match s.fetchDefaultAcr(realm, acrValues, claims, client)
    case None => Success(None)
    case Some(acr) => if acr.amrs == [] then Failure(EmptySequence) else Success(Some(acr.amrs[0]))
  }

  /** The login-required signal built from the first AMR lookup. */
  function LoginSignal(firstAmr: Result<Option<string>, Exc>, sessionAbsent: bool): Decision {
    match firstAmr
    case Failure(e) => Unhandled(e)
    case Success(amr) => LoginRequired(amr, sessionAbsent)
  }

  /** Whether the session is older than allowed: the request's `max_age`
      when present, otherwise the client's default, if any. The limit itself
      is still fresh. */
  predicate SessionExpired(maxAge: Option<int>, defaultMaxAge: Option<int>, authenticationTime: int, now: int) {
    match maxAge
    case Some(m) => now > authenticationTime + m
    case None => defaultMaxAge.Some? && now > authenticationTime + defaultMaxAge.value
  }

  /** Reads the `id_token_hint`; a token the reader rejects is `invalid_request`. */
  function ExtractIdTokenHint(s: Services, realm: Option<string>, hint: string): (r: Result<IdToken, Decision>)
    ensures r.Failure? <==> s.readSelfIssuedToken(realm, hint).Failure?
    ensures r.Failure? ==> r.error == Fail(INVALID_REQUEST, [s.readSelfIssuedToken(realm, hint).error])
    ensures r.Success? ==> r.value == s.readSelfIssuedToken(realm, hint).value
  {
    match s.readSelfIssuedToken(realm, hint)
    case Failure(message) => Failure(Fail(INVALID_REQUEST, [message]))
    case Success(token) => Success(token)
  }

  /** A present `id_token_hint` must name the current user as subject and
      this server's issuer among its audiences. */
  function CheckIdTokenHint(s: Services, realm: Option<string>, user: User, issuer: string, hint: string): (r: Check<Decision>)
    ensures IsBlank(hint) ==> r == Pass
    ensures !IsBlank(hint) && s.readSelfIssuedToken(realm, hint).Success? ==>
      var token := s.readSelfIssuedToken(realm, hint).value;
      (r == Pass <==> token.subject == user.name && issuer in token.audiences)
      && (r.Reject? ==> r.error == Fail(INVALID_REQUEST, []))
    ensures !IsBlank(hint) && s.readSelfIssuedToken(realm, hint).Failure? ==>
      r == Reject(Fail(INVALID_REQUEST, [s.readSelfIssuedToken(realm, hint).error]))
    ensures r.Reject? ==> r.error.Fail? && r.error.code == INVALID_REQUEST
  {
    if IsBlank(hint) then Pass
    else match ExtractIdTokenHint(s, realm, hint)
      case Failure(e) => Reject(e)
      case Success(token) =>
        if user.name != token.subject then Reject(Fail(INVALID_REQUEST, []))
        else if issuer !in token.audiences then Reject(Fail(INVALID_REQUEST, []))
        else Pass
  }

  /** Sends the user to the consent screen unless the client disabled consent. */
  function RedirectToConsentView(client: Client): (r: Check<Decision>)
    ensures r == Pass <==> client.isConsentDisabled
    ensures r.Reject? ==> r.error == ConsentRequired
  {
    if client.isConsentDisabled then Pass else Reject(ConsentRequired)
  }

  /** Essential id_token claims that are standard user claims. */
  predicate IsEnforcedClaim(claim: AuthorizedClaim, userClaimNames: seq<string>) {
    claim.target == IdTokenClaim && claim.isEssential && claim.name in userClaimNames
  }

  /** Whether the user carries the claim with an acceptable value; with no
      listed values any value is acceptable. */
  predicate IsSatisfied(claim: AuthorizedClaim, user: User) {
    exists i :: 0 <= i < |user.claims| && user.claims[i].claimType == claim.name
      && (claim.values == [] || user.claims[i].value in claim.values)
  }

  /** An enforced claim the user does not satisfy. */
  predicate IsInvalidClaim(claim: AuthorizedClaim, userClaimNames: seq<string>, user: User) {
    IsEnforcedClaim(claim, userClaimNames) && !IsSatisfied(claim, user)
  }

  /** The names of the enforced claims the user does not satisfy, in request order. */
  function InvalidClaims(claims: seq<AuthorizedClaim>, userClaimNames: seq<string>, user: User): (r: seq<string>)
    ensures forall n :: n in r <==> exists i :: 0 <= i < |claims| && claims[i].name == n && IsInvalidClaim(claims[i], userClaimNames, user)
  {
    var enforced := Filter(c => IsEnforcedClaim(c, userClaimNames), claims);
    var failing := Filter(c => !IsSatisfied(c, user), enforced);
    var r := MapSeq((c: AuthorizedClaim) => c.name, failing);
    forall n | n in r
      ensures exists i :: 0 <= i < |claims| && claims[i].name == n && IsInvalidClaim(claims[i], userClaimNames, user)
    {
      var k :| 0 <= k < |r| && r[k] == n;
      var c := failing[k];
      assert c in enforced;
      var i :| 0 <= i < |claims| && claims[i] == c;
    }
    forall i | 0 <= i < |claims| && IsInvalidClaim(claims[i], userClaimNames, user)
      ensures claims[i].name in r
    {
      assert claims[i] in enforced;
      var j :| 0 <= j < |enforced| && enforced[j] == claims[i];
      assert claims[i] in failing;
      var k :| 0 <= k < |failing| && failing[k] == claims[i];
      assert r[k] == claims[i].name;
    }
    r
  }

  /** Enforced claims the user does not satisfy fail `invalid_request`, naming them all. */
  function CheckClaims(claims: seq<AuthorizedClaim>, userClaimNames: seq<string>, user: User): (r: Check<Decision>)
    ensures r == Pass <==> forall i :: 0 <= i < |claims| ==> !IsInvalidClaim(claims[i], userClaimNames, user)
    ensures r.Reject? ==> r.error == Fail(INVALID_REQUEST, InvalidClaims(claims, userClaimNames, user))
  {
    var invalid := InvalidClaims(claims, userClaimNames, user);
    if invalid != [] then
      assert invalid[0] in invalid;
      Reject(Fail(INVALID_REQUEST, invalid))
    else
      Pass
  }

  /** The default ACR's methods the current authentication lacks: the first
      missing one (in the ACR's order) is reported with the whole list. A
      null ACR is dereferenced and throws. */
  function CheckAmrs(acr: Option<Acr>, amrs: seq<string>): (r: Check<Decision>)
    ensures acr.None? ==> r == Reject(Unhandled(NullReference))
    ensures acr.Some? ==> (r == Pass <==> forall i :: 0 <= i < |acr.value.amrs| ==> acr.value.amrs[i] in amrs)
    ensures acr.Some? && r.Reject? ==>
      && r.error.AmrMissing? && r.error.acr == acr.value.name && r.error.all == acr.value.amrs
      && exists k :: 0 <= k < |acr.value.amrs| && acr.value.amrs[k] == r.error.first && r.error.first !in amrs
                     && forall j :: 0 <= j < k ==> acr.value.amrs[j] in amrs
  {
    match acr
    case None => Reject(Unhandled(NullReference))
    case Some(a) =>
      var missing := Filter(m => m !in amrs, a.amrs);
      if missing == [] then
        Pass
      else
        FilterHead(m => m !in amrs, a.amrs);
        Reject(AmrMissing(a.name, missing[0], a.amrs))
  }

  /** The policy steps that follow the user and session checks, in order. */
  function PolicyChecks(s: Services, grant: GrantRequest, client: Client, realm: Option<string>, data: RequestData,
                        user: User, session: Session, amrs: seq<string>, issuer: string, now: int): seq<Check<Decision>>
  {
    var firstAmr := GetFirstAmr(s, realm, data.acrValues, data.claims, client);
    [ if SessionExpired(data.maxAge, client.defaultMaxAge, session.authenticationTime, now)
      then Reject(LoginSignal(firstAmr, false)) else Pass,
      CheckIdTokenHint(s, realm, user, issuer, data.idTokenHint),
      if data.prompt == PROMPT_LOGIN then Reject(LoginSignal(firstAmr, false))
      else if data.prompt == PROMPT_CONSENT then RedirectToConsentView(client)
      else if data.prompt == PROMPT_SELECT_ACCOUNT then Reject(SelectAccountRequired)
      else Pass,
      if IsBlank(data.grantManagementAction)
         && !s.hasConsent(user, realm, data.clientId, grant, data.claims, grant.authorizationDetails)
      then RedirectToConsentView(client) else Pass,
      CheckClaims(data.claims, s.userClaimNames, user),
      CheckAmrs(s.fetchDefaultAcr(realm, data.acrValues, data.claims, client), amrs) ]
  }

  /** The second phase, run once the user is authenticated: `Proceed` when
      nothing stands in the way of issuing the authorization response. */
  function ValidateWhenUserIsAuthenticated(s: Services, grant: GrantRequest, ctx: HandlerContext, now: int): Decision
    reads ctx
    requires ctx.client.Some?
  {
    var client := ctx.client.value;
    var data := ctx.data;
    match ctx.user
    case None =>
      if data.prompt == PROMPT_NONE then Fail(LOGIN_REQUIRED, [])
      else LoginSignal(GetFirstAmr(s, ctx.realm, data.acrValues, data.claims, client), false)
    case Some(user) =>
      match ctx.session
      case None => LoginSignal(GetFirstAmr(s, ctx.realm, data.acrValues, data.claims, client), true)
      case Some(session) =>
        var policy := FirstReject(PolicyChecks(s, grant, client, ctx.realm, data, user, session, ctx.amrs, ctx.issuer, now));
        if policy.Reject? then policy.error else Proceed
  }
}
