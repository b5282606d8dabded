/** Properties of the authorization request validator: what each phase's
    outcome means, the order in which its checks apply, and the boundary
    cases of its rules. */
module ValidatorProperties {
  import opened Common
  import opened ValidatorTypes
  import opened AuthorizationRequestValidator

  /** A rejection at position `k` preceded only by passing checks is the
      outcome of the whole chain. */
  lemma {:induction false} FirstRejectAt<E>(cs: seq<Check<E>>, k: nat)
    requires k < |cs| && cs[k].Reject?
    requires forall j :: 0 <= j < k ==> cs[j] == Pass
    ensures FirstReject(cs) == cs[k]
  {
    if k > 0 {
      assert forall j :: 0 <= j < k - 1 ==> cs[1..][j] == Pass by {
        forall j | 0 <= j < k - 1 ensures cs[1..][j] == Pass { assert cs[1..][j] == cs[j + 1]; }
      }
      FirstRejectAt(cs[1..], k - 1);
    }
  }

  // ---------------------------------------------------------------------
  // Before authentication
  // ---------------------------------------------------------------------

  /** A blank client id is rejected whatever the directory holds and
      whatever else the request says. */
  lemma BlankClientIdRejected(s: Services, realm: Option<string>, clientId: string, data: RequestData, fromConsentScreen: bool)
    requires IsBlank(clientId)
    ensures ValidateAuthorizationRequestSpec(s, realm, clientId, data, fromConsentScreen) == Fail(INVALID_REQUEST, [CLIENT_ID])
  {
  }

  /** A client id the directory does not know is `invalid_client`, naming it. */
  lemma UnknownClientRejected(s: Services, realm: Option<string>, clientId: string, data: RequestData, fromConsentScreen: bool)
    requires !IsBlank(clientId) && s.clients(realm, clientId).None?
    ensures ValidateAuthorizationRequestSpec(s, realm, clientId, data, fromConsentScreen) == Fail(INVALID_CLIENT, [clientId])
  {
  }

  /** The response type rules decide before the grant helper is asked:
      no response type is `invalid_request`, and otherwise the unhandled
      ones, exactly and in request order, are `unsupported_response_type`. */
  lemma ResponseTypesDecideFirst(s: Services, realm: Option<string>, client: Client, data: RequestData, fromConsentScreen: bool)
    ensures data.responseTypes == [] ==>
      ValidateExtracted(s, realm, client, data, fromConsentScreen) == Fail(INVALID_REQUEST, [RESPONSE_TYPE])
    ensures data.responseTypes != [] && UnhandledResponseTypes(s.responseTypeHandlers, data.responseTypes) != [] ==>
      ValidateExtracted(s, realm, client, data, fromConsentScreen)
        == Fail(UNSUPPORTED_RESPONSE_TYPE, UnhandledResponseTypes(s.responseTypeHandlers, data.responseTypes))
  {
  }

  /** The rules checked after the grant is resolved, stated rule by rule. */
  ghost predicate GrantRulesHold(s: Services, client: Client, data: RequestData, grant: GrantRequest, fromConsentScreen: bool) {
    // the grant asks for something the client may have
    && (grant.scopes != [] || grant.audiences != [] || data.authorizationDetails != [])
    && (forall i :: 0 <= i < |grant.scopes| ==> grant.scopes[i] == OPENID || grant.scopes[i] in client.scopes)
    && (forall i :: 0 <= i < |data.authorizationDetails| ==>
          !IsBlank(data.authorizationDetails[i].detailType)
          && data.authorizationDetails[i].detailType in client.authorizationDataTypes)
    && s.validateOpenIdCredential(data.authorizationDetails) == Pass
    // redirect URI present and matching, response mode known, response
    // types allowed for the client
    && !IsBlank(data.redirectUri) && RedirectUriAllowed(s, client, data.redirectUri)
    && (IsBlank(data.responseMode) || data.responseMode in s.responseModes)
    && (forall i :: 0 <= i < |data.responseTypes| ==> data.responseTypes[i] in client.responseTypes)
    // nonce and resource indicators
    && (ID_TOKEN in data.responseTypes ==> !IsBlank(data.nonce))
    && (client.isResourceParameterRequired ==> data.resources != [])
    // grant management
    && (s.grantManagementActionRequired ==> !IsBlank(data.grantManagementAction))
    && (IsBlank(data.grantManagementAction) || data.grantManagementAction in STANDARD_GRANT_MANAGEMENT_ACTIONS)
    && (IsBlank(data.grantId) || (!IsBlank(data.grantManagementAction) && (fromConsentScreen || data.grantManagementAction != CREATE)))
  }

  /** The checks after grant extraction all pass exactly when the rules hold. */
  lemma GrantChecksPassIff(s: Services, client: Client, data: RequestData, grant: GrantRequest, fromConsentScreen: bool)
    ensures FirstReject(GrantChecks(s, client, data, grant, fromConsentScreen)) == Pass
        <==> GrantRulesHold(s, client, data, grant, fromConsentScreen)
  {
    var cs := GrantChecks(s, client, data, grant, fromConsentScreen);
    NinePass(cs);
  }

  lemma NinePass(cs: seq<Check<Decision>>)
    requires |cs| == 9
    ensures FirstReject(cs) == Pass
      <==> cs[0] == Pass && cs[1] == Pass && cs[2] == Pass && cs[3] == Pass && cs[4] == Pass
           && cs[5] == Pass && cs[6] == Pass && cs[7] == Pass && cs[8] == Pass
  {
  }

  /** Once the grant helper has resolved the grant, the first phase accepts
      exactly the requests whose response types are all registered and that
      satisfy every later rule, and then returns that grant with the
      registered handlers of the requested response types. */
  lemma ValidatedIff(s: Services, realm: Option<string>, client: Client, data: RequestData, grant: GrantRequest, fromConsentScreen: bool)
    requires s.extractGrant(RealmOrDefault(s, realm), data.scopes, data.resources, [], data.authorizationDetails) == Success(grant)
    ensures ValidateExtracted(s, realm, client, data, fromConsentScreen).Validated?
        <==> && data.responseTypes != []
             && (forall i :: 0 <= i < |data.responseTypes| ==> IsHandled(s.responseTypeHandlers, data.responseTypes[i]))
             && GrantRulesHold(s, client, data, grant, fromConsentScreen)
    ensures ValidateExtracted(s, realm, client, data, fromConsentScreen).Validated? ==>
      ValidateExtracted(s, realm, client, data, fromConsentScreen)
        == Validated(grant, SelectHandlers(s.responseTypeHandlers, data.responseTypes))
  {
    GrantChecksPassIff(s, client, data, grant, fromConsentScreen);
    GrantChecksNeverValidate(s, client, data, grant, fromConsentScreen);
  }

  /** The whole first phase accepts a request exactly when its client id
      names a registered client, the request object expands, the grant is
      resolved from the expanded request, and the expanded request then
      passes every response-type and grant rule. */
  lemma RequestValidatedIff(s: Services, realm: Option<string>, clientId: string, data: RequestData, fromConsentScreen: bool)
    ensures ValidateAuthorizationRequestSpec(s, realm, clientId, data, fromConsentScreen).Validated? <==>
      && !IsBlank(clientId) && s.clients(realm, clientId).Some?
      && var client := s.clients(realm, clientId).value;
         && s.extractRequest(client, data).Success?
         && var e := s.extractRequest(client, data).value;
            && s.extractGrant(RealmOrDefault(s, realm), e.scopes, e.resources, [], e.authorizationDetails).Success?
            && e.responseTypes != []
            && (forall i :: 0 <= i < |e.responseTypes| ==> IsHandled(s.responseTypeHandlers, e.responseTypes[i]))
            && GrantRulesHold(s, client, e,
                 s.extractGrant(RealmOrDefault(s, realm), e.scopes, e.resources, [], e.authorizationDetails).value, fromConsentScreen)
  {
    var auth := AuthenticateClient(s, realm, clientId);
    if auth.Success? {
      var client := auth.value;
      if s.extractRequest(client, data).Success? {
        var e := s.extractRequest(client, data).value;
        var g := s.extractGrant(RealmOrDefault(s, realm), e.scopes, e.resources, [], e.authorizationDetails);
        if g.Success? {
          ValidatedIff(s, realm, client, e, g.value, fromConsentScreen);
        }
      }
    }
  }

  /** No grant check rejects with a `Validated` decision. */
  lemma GrantChecksNeverValidate(s: Services, client: Client, data: RequestData, grant: GrantRequest, fromConsentScreen: bool)
    ensures FirstReject(GrantChecks(s, client, data, grant, fromConsentScreen)).Reject? ==>
      !FirstReject(GrantChecks(s, client, data, grant, fromConsentScreen)).error.Validated?
  {
    var cs := GrantChecks(s, client, data, grant, fromConsentScreen);
    assert NeverValidates(cs[0]) && NeverValidates(cs[1]) && NeverValidates(cs[2]);
    assert NeverValidates(cs[3]) && NeverValidates(cs[4]) && NeverValidates(cs[5]);
    assert NeverValidates(cs[6]) && NeverValidates(cs[7]) && NeverValidates(cs[8]);
    FirstRejectNeverValidates(cs);
  }

  predicate NeverValidates(c: Check<Decision>) {
    c.Reject? ==> !c.error.Validated?
  }

  lemma FirstRejectNeverValidates(cs: seq<Check<Decision>>)
    requires forall i :: 0 <= i < |cs| ==> NeverValidates(cs[i])
    ensures NeverValidates(FirstReject(cs))
  {
  }

  /** A present redirect URI that matches no pattern raises the dedicated
      bad-redirect error once the grant, scope and authorization detail
      checks have passed, whatever the response mode and response types. */
  lemma BadRedirectUriWins(s: Services, realm: Option<string>, client: Client, data: RequestData, grant: GrantRequest, fromConsentScreen: bool)
    requires CheckResponseTypes(s.responseTypeHandlers, data.responseTypes) == Pass
    requires s.extractGrant(RealmOrDefault(s, realm), data.scopes, data.resources, [], data.authorizationDetails) == Success(grant)
    requires forall j :: 0 <= j < 4 ==> GrantChecks(s, client, data, grant, fromConsentScreen)[j] == Pass
    requires !IsBlank(data.redirectUri) && !RedirectUriAllowed(s, client, data.redirectUri)
    ensures ValidateExtracted(s, realm, client, data, fromConsentScreen) == BadRedirectUri(data.redirectUri)
  {
    FirstRejectAt(GrantChecks(s, client, data, grant, fromConsentScreen), 4);
  }

  /** A blank redirect URI passes the pattern check but, once the response
      mode and the client's response types are accepted, is rejected as a
      missing `redirect_uri`, never as a bad redirect. */
  lemma BlankRedirectUriIsMissingParameter(s: Services, realm: Option<string>, client: Client, data: RequestData, grant: GrantRequest, fromConsentScreen: bool)
    requires CheckResponseTypes(s.responseTypeHandlers, data.responseTypes) == Pass
    requires s.extractGrant(RealmOrDefault(s, realm), data.scopes, data.resources, [], data.authorizationDetails) == Success(grant)
    requires forall j :: 0 <= j < 4 ==> GrantChecks(s, client, data, grant, fromConsentScreen)[j] == Pass
    requires IsBlank(data.redirectUri)
    requires IsBlank(data.responseMode) || data.responseMode in s.responseModes
    requires forall i :: 0 <= i < |data.responseTypes| ==> data.responseTypes[i] in client.responseTypes
    ensures ValidateExtracted(s, realm, client, data, fromConsentScreen) == Fail(INVALID_REQUEST, [REDIRECT_URI])
  {
    FirstRejectAt(GrantChecks(s, client, data, grant, fromConsentScreen), 5);
  }

  /** With every earlier check passed, an `id_token` response type without a
      nonce is rejected naming `nonce`. */
  lemma IdTokenNeedsNonce(s: Services, realm: Option<string>, client: Client, data: RequestData, grant: GrantRequest, fromConsentScreen: bool)
    requires CheckResponseTypes(s.responseTypeHandlers, data.responseTypes) == Pass
    requires s.extractGrant(RealmOrDefault(s, realm), data.scopes, data.resources, [], data.authorizationDetails) == Success(grant)
    requires forall j :: 0 <= j < 6 ==> GrantChecks(s, client, data, grant, fromConsentScreen)[j] == Pass
    requires ID_TOKEN in data.responseTypes && IsBlank(data.nonce)
    ensures ValidateExtracted(s, realm, client, data, fromConsentScreen) == Fail(INVALID_REQUEST, [NONCE])
  {
    FirstRejectAt(GrantChecks(s, client, data, grant, fromConsentScreen), 6);
  }

  /** A grant id with the `create` action outside the consent screen is
      rejected, whatever the host requires. */
  lemma GrantIdWithCreateRejected(s: Services, data: RequestData)
    requires !IsBlank(data.grantId) && data.grantManagementAction == CREATE
    ensures CheckGrantIdAndAction(s, data, false).Reject?
    ensures CheckGrantIdAndAction(s, data, true) == Pass
  {
    assert !IsBlank(CREATE) by { assert !IsWhiteSpace(CREATE[0]); }
    assert CREATE in STANDARD_GRANT_MANAGEMENT_ACTIONS;
  }

  // ---------------------------------------------------------------------
  // After authentication
  // ---------------------------------------------------------------------

  /** Without a user, `prompt=none` is `login_required`; any other prompt
      asks for a login hinting the default ACR's first method. */
  lemma NoUserNeedsLogin(s: Services, grant: GrantRequest, ctx: HandlerContext, now: int)
    requires ctx.client.Some? && ctx.user.None?
    ensures ctx.data.prompt == PROMPT_NONE ==>
      ValidateWhenUserIsAuthenticated(s, grant, ctx, now) == Fail(LOGIN_REQUIRED, [])
    ensures ctx.data.prompt != PROMPT_NONE ==>
      ValidateWhenUserIsAuthenticated(s, grant, ctx, now)
        == LoginSignal(GetFirstAmr(s, ctx.realm, ctx.data.acrValues, ctx.data.claims, ctx.client.value), false)
  {
  }

  /** Without a session the same login signal is raised, flagged as
      session-absent. */
  lemma NoSessionNeedsLogin(s: Services, grant: GrantRequest, ctx: HandlerContext, now: int)
    requires ctx.client.Some? && ctx.user.Some? && ctx.session.None?
    ensures ValidateWhenUserIsAuthenticated(s, grant, ctx, now)
      == LoginSignal(GetFirstAmr(s, ctx.realm, ctx.data.acrValues, ctx.data.claims, ctx.client.value), true)
  {
  }

  /** The login signal carries no method when no ACR applies and the ACR's
      first method otherwise. */
  lemma LoginSignalHint(s: Services, realm: Option<string>, acrValues: seq<string>, claims: seq<AuthorizedClaim>, client: Client, absent: bool)
    ensures s.fetchDefaultAcr(realm, acrValues, claims, client).None? ==>
      LoginSignal(GetFirstAmr(s, realm, acrValues, claims, client), absent) == LoginRequired(None, absent)
    ensures s.fetchDefaultAcr(realm, acrValues, claims, client).Some? && s.fetchDefaultAcr(realm, acrValues, claims, client).value.amrs != [] ==>
      LoginSignal(GetFirstAmr(s, realm, acrValues, claims, client), absent)
        == LoginRequired(Some(s.fetchDefaultAcr(realm, acrValues, claims, client).value.amrs[0]), absent)
  {
  }

  /** `max_age` is a strict bound: a session exactly `max_age` seconds old is
      still fresh, one a second older is not; the client's default is only
      consulted when the request has no `max_age`. */
  lemma MaxAgeBoundary(m: int, defaultMaxAge: Option<int>, otherDefault: Option<int>, authenticationTime: int)
    ensures !SessionExpired(Some(m), defaultMaxAge, authenticationTime, authenticationTime + m)
    ensures SessionExpired(Some(m), defaultMaxAge, authenticationTime, authenticationTime + m + 1)
    ensures forall now :: SessionExpired(Some(m), defaultMaxAge, authenticationTime, now)
                      == SessionExpired(Some(m), otherDefault, authenticationTime, now)
    ensures forall now :: SessionExpired(None, None, authenticationTime, now) == false
  {
  }

  // The rules of the second phase, stated on their own terms, one per
  // step, in the order the steps run.

  /** An absent hint, or a readable one naming the user as subject and this
      server's issuer among its audiences. */
  ghost predicate HintAccepted(s: Services, realm: Option<string>, user: User, issuer: string, hint: string) {
    IsBlank(hint)
    || (&& s.readSelfIssuedToken(realm, hint).Success?
        && s.readSelfIssuedToken(realm, hint).value.subject == user.name
        && issuer in s.readSelfIssuedToken(realm, hint).value.audiences)
  }

  /** No prompt forces a login or an account selection, and consent is
      needed neither by the prompt nor by a missing grant of consent, unless
      the client disabled it. */
  ghost predicate NoInteractionForced(s: Services, grant: GrantRequest, client: Client, realm: Option<string>, data: RequestData, user: User) {
    && data.prompt != PROMPT_LOGIN && data.prompt != PROMPT_SELECT_ACCOUNT
    && (data.prompt == PROMPT_CONSENT ==> client.isConsentDisabled)
    && (IsBlank(data.grantManagementAction)
        && !s.hasConsent(user, realm, data.clientId, grant, data.claims, grant.authorizationDetails)
        ==> client.isConsentDisabled)
  }

  /** Every essential id_token claim the user must carry is carried. */
  ghost predicate ClaimsSatisfied(s: Services, data: RequestData, user: User) {
    forall i :: 0 <= i < |data.claims| ==> !IsInvalidClaim(data.claims[i], s.userClaimNames, user)
  }

  /** A default ACR applies and every one of its methods was performed. */
  ghost predicate AmrsPerformed(s: Services, client: Client, realm: Option<string>, data: RequestData, amrs: seq<string>) {
    var acr := s.fetchDefaultAcr(realm, data.acrValues, data.claims, client);
    acr.Some? && forall i :: 0 <= i < |acr.value.amrs| ==> acr.value.amrs[i] in amrs
  }

  ghost predicate PolicyRulesHold(s: Services, grant: GrantRequest, client: Client, realm: Option<string>, data: RequestData,
                                  user: User, session: Session, amrs: seq<string>, issuer: string, now: int) {
    && !SessionExpired(data.maxAge, client.defaultMaxAge, session.authenticationTime, now)
    && HintAccepted(s, realm, user, issuer, data.idTokenHint)
    && NoInteractionForced(s, grant, client, realm, data, user)
    && ClaimsSatisfied(s, data, user)
    && AmrsPerformed(s, client, realm, data, amrs)
  }

  /** The hint step passes exactly when the hint is accepted. */
  lemma HintAcceptedIff(s: Services, realm: Option<string>, user: User, issuer: string, hint: string)
    ensures CheckIdTokenHint(s, realm, user, issuer, hint) == Pass <==> HintAccepted(s, realm, user, issuer, hint)
  {
  }

  /** An expired session asks for a login, hinting the default ACR's first
      method, before anything else is looked at. */
  lemma ExpiredNeedsLogin(s: Services, grant: GrantRequest, ctx: HandlerContext, now: int)
    requires ctx.client.Some? && ctx.user.Some? && ctx.session.Some?
    requires SessionExpired(ctx.data.maxAge, ctx.client.value.defaultMaxAge, ctx.session.value.authenticationTime, now)
    ensures ValidateWhenUserIsAuthenticated(s, grant, ctx, now)
      == LoginSignal(GetFirstAmr(s, ctx.realm, ctx.data.acrValues, ctx.data.claims, ctx.client.value), false)
  {
    PolicyRejectAt(s, grant, ctx.client.value, ctx.realm, ctx.data, ctx.user.value, ctx.session.value, ctx.amrs, ctx.issuer, now, 0);
  }

  /** With a fresh session, an unreadable hint is `invalid_request` carrying
      the reader's message, and a readable one naming another subject or
      leaving out this issuer is `invalid_request` too. */
  lemma BadHintRejected(s: Services, grant: GrantRequest, ctx: HandlerContext, now: int)
    requires ctx.client.Some? && ctx.user.Some? && ctx.session.Some?
    requires !SessionExpired(ctx.data.maxAge, ctx.client.value.defaultMaxAge, ctx.session.value.authenticationTime, now)
    requires !IsBlank(ctx.data.idTokenHint)
    ensures var read := s.readSelfIssuedToken(ctx.realm, ctx.data.idTokenHint);
      read.Failure? ==> ValidateWhenUserIsAuthenticated(s, grant, ctx, now) == Fail(INVALID_REQUEST, [read.error])
    ensures var read := s.readSelfIssuedToken(ctx.realm, ctx.data.idTokenHint);
      read.Success? && (read.value.subject != ctx.user.value.name || ctx.issuer !in read.value.audiences) ==>
      ValidateWhenUserIsAuthenticated(s, grant, ctx, now) == Fail(INVALID_REQUEST, [])
  {
    PolicyRejectAt(s, grant, ctx.client.value, ctx.realm, ctx.data, ctx.user.value, ctx.session.value, ctx.amrs, ctx.issuer, now, 1);
  }

  /** With the user and session fresh and the hint accepted, `prompt=login`
      forces a login and `prompt=select_account` an account selection. */
  lemma PromptForces(s: Services, grant: GrantRequest, ctx: HandlerContext, now: int)
    requires ctx.client.Some? && ctx.user.Some? && ctx.session.Some?
    requires !SessionExpired(ctx.data.maxAge, ctx.client.value.defaultMaxAge, ctx.session.value.authenticationTime, now)
    requires HintAccepted(s, ctx.realm, ctx.user.value, ctx.issuer, ctx.data.idTokenHint)
    ensures ctx.data.prompt == PROMPT_LOGIN ==>
      ValidateWhenUserIsAuthenticated(s, grant, ctx, now)
        == LoginSignal(GetFirstAmr(s, ctx.realm, ctx.data.acrValues, ctx.data.claims, ctx.client.value), false)
    ensures ctx.data.prompt == PROMPT_SELECT_ACCOUNT ==>
      ValidateWhenUserIsAuthenticated(s, grant, ctx, now) == SelectAccountRequired
    ensures ctx.data.prompt == PROMPT_CONSENT && !ctx.client.value.isConsentDisabled ==>
      ValidateWhenUserIsAuthenticated(s, grant, ctx, now) == ConsentRequired
  {
    PolicyRejectAt(s, grant, ctx.client.value, ctx.realm, ctx.data, ctx.user.value, ctx.session.value, ctx.amrs, ctx.issuer, now, 2);
  }

  /** Past the prompt, a request with no grant management action from a
      user who has not consented is sent to the consent screen unless the
      client disabled it. */
  lemma MissingConsentAsksConsent(s: Services, grant: GrantRequest, ctx: HandlerContext, now: int)
    requires ctx.client.Some? && ctx.user.Some? && ctx.session.Some?
    requires !SessionExpired(ctx.data.maxAge, ctx.client.value.defaultMaxAge, ctx.session.value.authenticationTime, now)
    requires HintAccepted(s, ctx.realm, ctx.user.value, ctx.issuer, ctx.data.idTokenHint)
    requires ctx.data.prompt != PROMPT_LOGIN && ctx.data.prompt != PROMPT_SELECT_ACCOUNT
    requires IsBlank(ctx.data.grantManagementAction) && !ctx.client.value.isConsentDisabled
    requires !s.hasConsent(ctx.user.value, ctx.realm, ctx.data.clientId, grant, ctx.data.claims, grant.authorizationDetails)
    ensures ValidateWhenUserIsAuthenticated(s, grant, ctx, now) == ConsentRequired
  {
    var k := if ctx.data.prompt == PROMPT_CONSENT then 2 else 3;
    PolicyRejectAt(s, grant, ctx.client.value, ctx.realm, ctx.data, ctx.user.value, ctx.session.value, ctx.amrs, ctx.issuer, now, k);
  }

  /** Past the interactions, an essential claim the user does not carry is
      `invalid_request` listing the names of every such claim. */
  lemma InvalidClaimsRejected(s: Services, grant: GrantRequest, ctx: HandlerContext, now: int)
    requires ctx.client.Some? && ctx.user.Some? && ctx.session.Some?
    requires !SessionExpired(ctx.data.maxAge, ctx.client.value.defaultMaxAge, ctx.session.value.authenticationTime, now)
    requires HintAccepted(s, ctx.realm, ctx.user.value, ctx.issuer, ctx.data.idTokenHint)
    requires NoInteractionForced(s, grant, ctx.client.value, ctx.realm, ctx.data, ctx.user.value)
    requires !ClaimsSatisfied(s, ctx.data, ctx.user.value)
    ensures ValidateWhenUserIsAuthenticated(s, grant, ctx, now)
      == Fail(INVALID_REQUEST, InvalidClaims(ctx.data.claims, s.userClaimNames, ctx.user.value))
  {
    PolicyRejectAt(s, grant, ctx.client.value, ctx.realm, ctx.data, ctx.user.value, ctx.session.value, ctx.amrs, ctx.issuer, now, 4);
  }

  /** Last, the default ACR: none at all is a null dereference, and a method
      the current authentication lacks is reported, naming the first such
      method in the ACR's order. */
  lemma AmrChecked(s: Services, grant: GrantRequest, ctx: HandlerContext, now: int)
    requires ctx.client.Some? && ctx.user.Some? && ctx.session.Some?
    requires !SessionExpired(ctx.data.maxAge, ctx.client.value.defaultMaxAge, ctx.session.value.authenticationTime, now)
    requires HintAccepted(s, ctx.realm, ctx.user.value, ctx.issuer, ctx.data.idTokenHint)
    requires NoInteractionForced(s, grant, ctx.client.value, ctx.realm, ctx.data, ctx.user.value)
    requires ClaimsSatisfied(s, ctx.data, ctx.user.value)
    ensures var acr := s.fetchDefaultAcr(ctx.realm, ctx.data.acrValues, ctx.data.claims, ctx.client.value);
      acr.None? ==> ValidateWhenUserIsAuthenticated(s, grant, ctx, now) == Unhandled(NullReference)
    ensures var acr := s.fetchDefaultAcr(ctx.realm, ctx.data.acrValues, ctx.data.claims, ctx.client.value);
      var d := ValidateWhenUserIsAuthenticated(s, grant, ctx, now);
      acr.Some? && !AmrsPerformed(s, ctx.client.value, ctx.realm, ctx.data, ctx.amrs) ==>
      && d.AmrMissing? && d.acr == acr.value.name && d.all == acr.value.amrs
      && exists k :: 0 <= k < |acr.value.amrs| && acr.value.amrs[k] == d.first && d.first !in ctx.amrs
                     && forall j :: 0 <= j < k ==> acr.value.amrs[j] in ctx.amrs
  {
    PolicyRejectAt(s, grant, ctx.client.value, ctx.realm, ctx.data, ctx.user.value, ctx.session.value, ctx.amrs, ctx.issuer, now, 5);
  }

  /** The policy step at index `k` decides the outcome when it rejects and
      the steps before it, whose rules are given as the requirements, pass. */
  lemma PolicyRejectAt(s: Services, grant: GrantRequest, client: Client, realm: Option<string>, data: RequestData,
                       user: User, session: Session, amrs: seq<string>, issuer: string, now: int, k: nat)
    requires k < 6
    requires k > 0 ==> !SessionExpired(data.maxAge, client.defaultMaxAge, session.authenticationTime, now)
    requires k > 1 ==> HintAccepted(s, realm, user, issuer, data.idTokenHint)
    requires k > 2 ==> data.prompt != PROMPT_LOGIN && data.prompt != PROMPT_SELECT_ACCOUNT
                       && (data.prompt == PROMPT_CONSENT ==> client.isConsentDisabled)
    requires k > 3 ==> NoInteractionForced(s, grant, client, realm, data, user)
    requires k > 4 ==> ClaimsSatisfied(s, data, user)
    ensures var cs := PolicyChecks(s, grant, client, realm, data, user, session, amrs, issuer, now);
      cs[k].Reject? ==> FirstReject(cs) == cs[k]
  {
    var cs := PolicyChecks(s, grant, client, realm, data, user, session, amrs, issuer, now);
    HintAcceptedIff(s, realm, user, issuer, data.idTokenHint);
    if cs[k].Reject? {
      assert forall j :: 0 <= j < k ==> cs[j] == Pass;
      FirstRejectAt(cs, k);
    }
  }

  /** A client with consent disabled is never sent to the consent screen,
      whatever the prompt and whatever consent the user gave. */
  lemma ConsentDisabledNeverAsksConsent(s: Services, grant: GrantRequest, ctx: HandlerContext, now: int)
    requires ctx.client.Some? && ctx.client.value.isConsentDisabled
    ensures ValidateWhenUserIsAuthenticated(s, grant, ctx, now) != ConsentRequired
  {
    if ctx.user.Some? && ctx.session.Some? {
      PolicyAvoids(s, grant, ctx.client.value, ctx.realm, ctx.data, ctx.user.value, ctx.session.value, ctx.amrs, ctx.issuer, now, ConsentRequired);
    }
  }

  /** The second phase proceeds exactly when a user with a session is
      bound and every rule of the policy steps holds: a fresh session, an
      accepted hint, no forced interaction, every enforced claim carried and
      every method of the default ACR performed. */
  lemma ProceedIff(s: Services, grant: GrantRequest, ctx: HandlerContext, now: int)
    requires ctx.client.Some?
    ensures ValidateWhenUserIsAuthenticated(s, grant, ctx, now) == Proceed <==>
      && ctx.user.Some? && ctx.session.Some?
      && PolicyRulesHold(s, grant, ctx.client.value, ctx.realm, ctx.data, ctx.user.value, ctx.session.value, ctx.amrs, ctx.issuer, now)
  {
    if ctx.user.Some? && ctx.session.Some? {
      PolicyAvoids(s, grant, ctx.client.value, ctx.realm, ctx.data, ctx.user.value, ctx.session.value, ctx.amrs, ctx.issuer, now, Proceed);
      PolicyPassIff(s, grant, ctx.client.value, ctx.realm, ctx.data, ctx.user.value, ctx.session.value, ctx.amrs, ctx.issuer, now);
    }
  }

  /** No policy check rejects with a decision other than a login, an
      account selection, a failure, a missing method, an unhandled error or,
      for a client that has not disabled it, consent. */
  lemma PolicyAvoids(s: Services, grant: GrantRequest, client: Client, realm: Option<string>, data: RequestData,
                     user: User, session: Session, amrs: seq<string>, issuer: string, now: int, d: Decision)
    requires !d.LoginRequired? && !d.Unhandled? && !d.Fail? && !d.AmrMissing? && d != SelectAccountRequired
    requires d == ConsentRequired ==> client.isConsentDisabled
    ensures FirstReject(PolicyChecks(s, grant, client, realm, data, user, session, amrs, issuer, now)) != Reject(d)
  {
    var firstAmr := GetFirstAmr(s, realm, data.acrValues, data.claims, client);
    var hint := CheckIdTokenHint(s, realm, user, issuer, data.idTokenHint);
    var claims := CheckClaims(data.claims, s.userClaimNames, user);
    var acr := CheckAmrs(s.fetchDefaultAcr(realm, data.acrValues, data.claims, client), amrs);
    assert hint != Reject(d) && claims != Reject(d) && acr != Reject(d);
    PolicyShapeAvoids(firstAmr, SessionExpired(data.maxAge, client.defaultMaxAge, session.authenticationTime, now),
      hint, data.prompt, client,
      IsBlank(data.grantManagementAction) && !s.hasConsent(user, realm, data.clientId, grant, data.claims, grant.authorizationDetails),
      claims, acr, d);
  }

  lemma PolicyShapeAvoids(firstAmr: Result<Option<string>, Exc>, expired: bool, hint: Check<Decision>, prompt: string,
                          client: Client, askConsent: bool, claims: Check<Decision>, acr: Check<Decision>, d: Decision)
    requires !d.LoginRequired? && !d.Unhandled? && d != SelectAccountRequired
    requires d == ConsentRequired ==> client.isConsentDisabled
    requires hint != Reject(d) && claims != Reject(d) && acr != Reject(d)
    ensures FirstReject([
      if expired then Reject(LoginSignal(firstAmr, false)) else Pass,
      hint,
      if prompt == PROMPT_LOGIN then Reject(LoginSignal(firstAmr, false))
      else if prompt == PROMPT_CONSENT then RedirectToConsentView(client)
      else if prompt == PROMPT_SELECT_ACCOUNT then Reject(SelectAccountRequired)
      else Pass,
      if askConsent then RedirectToConsentView(client) else Pass,
      claims,
      acr]) != Reject(d)
  {
    var cs := [
      if expired then Reject(LoginSignal(firstAmr, false)) else Pass,
      hint,
      if prompt == PROMPT_LOGIN then Reject(LoginSignal(firstAmr, false))
      else if prompt == PROMPT_CONSENT then RedirectToConsentView(client)
      else if prompt == PROMPT_SELECT_ACCOUNT then Reject(SelectAccountRequired)
      else Pass,
      if askConsent then RedirectToConsentView(client) else Pass,
      claims,
      acr];
    assert cs[0] != Reject(d) && cs[2] != Reject(d) && cs[3] != Reject(d);
    FirstRejectAvoids(cs, d);
  }

  lemma FirstRejectAvoids(cs: seq<Check<Decision>>, d: Decision)
    requires forall i :: 0 <= i < |cs| ==> cs[i] != Reject(d)
    ensures FirstReject(cs) != Reject(d)
  {
  }

  /** All six policy steps pass exactly when all their rules hold. */
  lemma PolicyPassIff(s: Services, grant: GrantRequest, client: Client, realm: Option<string>, data: RequestData,
                      user: User, session: Session, amrs: seq<string>, issuer: string, now: int)
    ensures FirstReject(PolicyChecks(s, grant, client, realm, data, user, session, amrs, issuer, now)) == Pass
        <==> PolicyRulesHold(s, grant, client, realm, data, user, session, amrs, issuer, now)
  {
    var cs := PolicyChecks(s, grant, client, realm, data, user, session, amrs, issuer, now);
    HintAcceptedIff(s, realm, user, issuer, data.idTokenHint);
    SixPass(cs);
  }

  lemma SixPass(cs: seq<Check<Decision>>)
    requires |cs| == 6
    ensures FirstReject(cs) == Pass
      <==> cs[0] == Pass && cs[1] == Pass && cs[2] == Pass && cs[3] == Pass && cs[4] == Pass && cs[5] == Pass
  {
  }

  /** The worked example: an ACR demanding `pwd` then `otp`, satisfied by
      `pwd` alone, reports `otp` as the first missing method. */
  lemma AmrMissingExample()
    ensures CheckAmrs(Some(Acr("strong", ["pwd", "otp"])), ["pwd"]) == Reject(AmrMissing("strong", "otp", ["pwd", "otp"]))
  {
    var missing := Filter(m => m !in ["pwd"], ["pwd", "otp"]);
    assert ["pwd", "otp"][1..] == ["otp"];
    assert missing == ["otp"];
  }
}
