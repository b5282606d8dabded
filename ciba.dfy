/** The token endpoint handler for the CIBA grant type: it authenticates
    the client, has the backchannel request validated, binds the request's
    user, runs every token builder, applies the client's token profile,
    merges the response parameters into the result, and finally marks the
    backchannel request as sent and persists it. OAuth errors become 401
    (client authentication) or 400 responses. */
module CibaHandler {
  import opened Common

  const GRANT_TYPE := "urn:openid:params:grant-type:ciba"

  /** An OAuth exception; `unauthorized` marks the subclass raised when the
      client cannot be authenticated. */
  datatype OAuthException = OAuthException(code: string, message: string, unauthorized: bool)

  /** Exceptions the handler does not catch: `First` finding no token
      profile, and adding a response parameter the result already holds. */
  datatype Exc = NoMatchingProfile | DuplicateKey

  datatype Client = Client(clientId: string, preferredTokenProfile: string)

  datatype User = User(id: string)

  /** Response parameters and result payloads, by name. */
  type Parameters = map<string, string>

  /** A token builder: given the request's scopes, the client, the user and
      the response parameters so far, it writes its tokens into the
      parameters or throws. */
  datatype TokenBuilder = TokenBuilder(build: (seq<string>, Client, Option<User>, Parameters) -> Result<Parameters, OAuthException>)

  /** A token profile: a named rewriting of the response parameters. */
  datatype TokenProfile = TokenProfile(profile: string, enrich: Parameters -> Parameters)

  datatype Response =
    | Ok(payload: Parameters)
    | Error(status: int, code: string, message: string)
    | Unhandled(exc: Exc)

  /** The collaborator calls and context updates of one `Handle` call.
      The trace is ghost bookkeeping: each method appends a step by hand
      next to the statement it names, so the ordering contracts below hold
      of these annotations; they are read against the code, not derived
      from it. */
  datatype Step =
    | Authenticate | SetClient | Validate | SetUser | Build(index: nat)
    | Enrich | BuildResult | Merge | Send | Update | SaveChanges | LogError

  /** The error response for an OAuth exception: 401 for a failed client
      authentication, 400 for every other OAuth error; both keep the code
      and the message. */
  function ErrorResponse(e: OAuthException): (r: Response)
    ensures r.Error? && r.code == e.code && r.message == e.message
    ensures r.status == 401 <==> e.unauthorized
    ensures r.status == 400 <==> !e.unauthorized
  {
    if e.unauthorized then Error(401, e.code, e.message) else Error(400, e.code, e.message)
  }

  /** `FirstOrDefault(u => u.Id == id)` over the user store. */
  function FindUser(users: seq<User>, id: string): (r: Option<User>)
    ensures r.None? <==> forall i :: 0 <= i < |users| ==> users[i].id != id
    ensures r.Some? ==> exists k :: 0 <= k < |users| && users[k] == r.value && r.value.id == id
                                    && forall j :: 0 <= j < k ==> users[j].id != id
  {
    if users == [] then None
    else if users[0].id == id then Some(users[0])
    else
      var r := FindUser(users[1..], id);
      assert forall i :: 1 <= i < |users| ==> users[i] == users[1..][i - 1];
      FirstUserShift(users, id, r);
      r
  }

  /** A first match in the tail, after a head that does not match, is a
      first match in the whole store. */
  lemma FirstUserShift(users: seq<User>, id: string, r: Option<User>)
    requires |users| > 0 && users[0].id != id
    requires r.Some? ==> exists k :: 0 <= k < |users[1..]| && users[1..][k] == r.value && r.value.id == id
                                     && forall j :: 0 <= j < k ==> users[1..][j].id != id
    ensures r.Some? ==> exists k :: 0 <= k < |users| && users[k] == r.value && r.value.id == id
                                    && forall j :: 0 <= j < k ==> users[j].id != id
  {
    if r.Some? {
      var k :| 0 <= k < |users[1..]| && users[1..][k] == r.value && r.value.id == id
               && forall j :: 0 <= j < k ==> users[1..][j].id != id;
      assert users[k + 1] == users[1..][k];
      forall j | 0 <= j < k + 1
        ensures users[j].id != id
      {
        if j > 0 { assert users[j] == users[1..][j - 1]; }
      }
    }
  }

  /** `First(t => t.Profile == preferred)` over the registered profiles;
      None stands for the exception `First` throws when nothing matches. */
  function SelectProfile(profiles: seq<TokenProfile>, preferred: string): (r: Option<TokenProfile>)
    ensures r.None? <==> forall i :: 0 <= i < |profiles| ==> profiles[i].profile != preferred
    ensures r.Some? ==> exists k :: 0 <= k < |profiles| && profiles[k] == r.value && r.value.profile == preferred
                                    && forall j :: 0 <= j < k ==> profiles[j].profile != preferred
  {
    if profiles == [] then None
    else if profiles[0].profile == preferred then Some(profiles[0])
    else
      var r := SelectProfile(profiles[1..], preferred);
      assert forall i :: 1 <= i < |profiles| ==> profiles[i] == profiles[1..][i - 1];
      r
  }

  /** The builders run one after the other over the same scopes, each seeing
      the parameters the previous ones wrote; the first exception stops them. */
  function RunBuilders(builders: seq<TokenBuilder>, scopes: seq<string>, client: Client, user: Option<User>, params: Parameters): Result<Parameters, OAuthException>
  {
    if builders == [] then Success(params)
    else match builders[0].build(scopes, client, user, params)
      case Failure(e) => Failure(e)
      case Success(next) => RunBuilders(builders[1..], scopes, client, user, next)
  }

  /** Running two groups of builders is running the first group and then,
      if it succeeded, the second on its output. */
  lemma {:induction false} RunBuildersAppend(a: seq<TokenBuilder>, b: seq<TokenBuilder>, scopes: seq<string>, client: Client, user: Option<User>, params: Parameters)
    ensures RunBuilders(a + b, scopes, client, user, params)
      == match RunBuilders(a, scopes, client, user, params)
         case Failure(e) => Failure(e)
         case Success(mid) => RunBuilders(b, scopes, client, user, mid)
  {
    if a == [] {
      assert a + b == b;
    } else {
      assert (a + b)[0] == a[0];
      assert (a + b)[1..] == a[1..] + b;
      match a[0].build(scopes, client, user, params)
      case Failure(e) =>
      case Success(next) => RunBuildersAppend(a[1..], b, scopes, client, user, next);
    }
  }

  /** Running one builder more: the first `i + 1` builders are the first
      `i` followed by builder `i` on their output. */
  lemma RunBuildersSnoc(builders: seq<TokenBuilder>, i: nat, scopes: seq<string>, client: Client, user: Option<User>,
                        params: Parameters, mid: Parameters)
    requires i < |builders|
    requires RunBuilders(builders[..i], scopes, client, user, params) == Success(mid)
    ensures RunBuilders(builders[..i + 1], scopes, client, user, params) == builders[i].build(scopes, client, user, mid)
  {
    assert builders[..i + 1] == builders[..i] + [builders[i]];
    RunBuildersAppend(builders[..i], [builders[i]], scopes, client, user, params);
  }

  /** The response parameters a redemption leaves behind, from those it
      started with: when every builder succeeds, their output rewritten by
      the client's token profile (or left as built when no profile
      matches, the `First` exception then stopping the handler); when a
      builder throws, the output of the builders before it. */
  ghost predicate RedeemedParameters(builders: seq<TokenBuilder>, profiles: seq<TokenProfile>, users: seq<User>,
                                     client: Client, scopes: seq<string>, userId: string,
                                     before: Parameters, after: Parameters)
  {
    var user := FindUser(users, userId);
    match RunBuilders(builders, scopes, client, user, before)
    case Success(built) =>
      after == (match SelectProfile(profiles, client.preferredTokenProfile)
                case Some(profile) => profile.enrich(built)
                case None => built)
    case Failure(e) =>
      exists k :: 0 <= k < |builders| && RunBuilders(builders[..k], scopes, client, user, before) == Success(after)
                  && builders[k].build(scopes, client, user, after) == Failure(e)
  }

  /** When every builder succeeds, the parameters left behind are their
      output rewritten by the matching profile, or left as built. */
  lemma BuiltParameters(builders: seq<TokenBuilder>, profiles: seq<TokenProfile>, users: seq<User>,
                        client: Client, scopes: seq<string>, userId: string, before: Parameters, built: Parameters)
    requires RunBuilders(builders, scopes, client, FindUser(users, userId), before) == Success(built)
    ensures SelectProfile(profiles, client.preferredTokenProfile).None? ==>
      RedeemedParameters(builders, profiles, users, client, scopes, userId, before, built)
    ensures SelectProfile(profiles, client.preferredTokenProfile).Some? ==>
      RedeemedParameters(builders, profiles, users, client, scopes, userId, before,
                         SelectProfile(profiles, client.preferredTokenProfile).value.enrich(built))
  {
  }

  /** When builder `k` throws, the parameters left behind are the output of
      the builders before it. */
  lemma FailedParameters(builders: seq<TokenBuilder>, profiles: seq<TokenProfile>, users: seq<User>,
                         client: Client, scopes: seq<string>, userId: string, before: Parameters,
                         k: nat, after: Parameters, e: OAuthException)
    requires k < |builders|
    requires RunBuilders(builders, scopes, client, FindUser(users, userId), before) == Failure(e)
    requires RunBuilders(builders[..k], scopes, client, FindUser(users, userId), before) == Success(after)
    requires builders[k].build(scopes, client, FindUser(users, userId), after) == Failure(e)
    ensures RedeemedParameters(builders, profiles, users, client, scopes, userId, before, after)
  {
  }

  /** Adds every response parameter to the result, as `result.Add` does: a
      name the result already holds throws. On success the payload is the
      result together with every parameter. */
  method MergeParameters(result: Parameters, params: Parameters) returns (r: Result<Parameters, Exc>)
    ensures r.Success? <==> result.Keys !! params.Keys
    ensures r.Success? ==> r.value == result + params
    ensures r.Failure? ==> r.error == DuplicateKey
    ensures r == Merged(result, params)
  {
    var merged := result;
    var pending := params.Keys;
    while pending != {}
      invariant pending <= params.Keys
      invariant result.Keys !! (params.Keys - pending)
      invariant merged == result + map k | k in params.Keys - pending :: params[k]
      decreases pending
    {
      var k :| k in pending;
      if k in merged {
        return Failure(DuplicateKey);
      }
      merged := merged[k := params[k]];
      pending := pending - {k};
    }
    assert params == map k | k in params.Keys - pending :: params[k];
    return Success(merged);
  }

  /** The pure outcome of a merge: the combined payload when no name
      clashes. */
  function Merged(result: Parameters, params: Parameters): (r: Result<Parameters, Exc>)
    ensures r.Success? <==> result.Keys !! params.Keys
    ensures r.Success? ==> r.value.Keys == result.Keys + params.Keys
    ensures r.Success? ==> forall k :: k in result ==> r.value[k] == result[k]
    ensures r.Success? ==> forall k :: k in params ==> r.value[k] == params[k]
  {
    if result.Keys !! params.Keys then Success(result + params) else Failure(DuplicateKey)
  }

  /** The backchannel authentication request being redeemed. */
  class BCAuthorize {
    const id: string
    const userId: string
    const scopes: seq<string>
    /** Whether tokens were already issued for this request. */
    var sent: bool

    constructor (id: string, userId: string, scopes: seq<string>)
      ensures this.id == id && this.userId == userId && this.scopes == scopes && !sent
    {
      this.id := id;
      this.userId := userId;
      this.scopes := scopes;
      sent := false;
    }

    method Send()
      modifies this
      ensures sent
    {
      sent := true;
    }
  }

  /** The backchannel request store: `Update` stages a record's state and
      `SaveChanges` commits the staged records. */
  class BCAuthorizeRepository {
    /** The sent flag of each staged record, by id. */
    var staged: map<string, bool>
    /** The sent flag of each committed record, by id. */
    var stored: map<string, bool>

    constructor (stored: map<string, bool>)
      ensures this.stored == stored && staged == map[]
    {
      this.stored := stored;
      staged := map[];
    }

    method Update(request: BCAuthorize)
      modifies this
      ensures staged == old(staged)[request.id := request.sent] && stored == old(stored)
    {
      staged := staged[request.id := request.sent];
    }

    method SaveChanges()
      modifies this
      ensures stored == old(stored) + old(staged) && staged == map[]
    {
      stored := stored + staged;
      staged := map[];
    }
  }

  /** The token request's context: the bound client and user and the
      response parameters the builders write. */
  class TokenContext {
    var client: Option<Client>
    var user: Option<User>
    var parameters: Parameters

    constructor ()
      ensures client == None && user == None && parameters == map[]
    {
      client := None;
      user := None;
      parameters := map[];
    }
  }

  /** One `Build` step per builder, in registration order. */
  function Builds(n: nat): (t: seq<Step>)
    ensures |t| == n
    ensures forall i :: 0 <= i < n ==> t[i] == Build(i)
  {
    if n == 0 then [] else Builds(n - 1) + [Build(n - 1)]
  }

  /** The steps of a successful redemption, from binding the user to
      committing the request, for `n` token builders. */
  function RedeemTrace(n: nat): (t: seq<Step>)
    ensures |t| == n + 7
  {
    [SetUser] + Builds(n) + [Enrich, BuildResult, Merge, Send, Update, SaveChanges]
  }

  /** The steps of a successful call, in order, for `n` token builders. */
  function SuccessTrace(n: nat): (t: seq<Step>)
    ensures |t| == n + 10
  {
    [Authenticate, SetClient, Validate] + RedeemTrace(n)
  }

  /** Stopping after the first `k` builders, or before the merge is
      committed, follows the success order. */
  lemma RedeemSteps(k: nat, n: nat)
    requires k <= n
    ensures var f := [SetUser] + Builds(k);
      && StoppedEarly(f, RedeemTrace(n), false) && f != RedeemTrace(n)
      && StoppedEarly(f + [LogError], RedeemTrace(n), true) && f + [LogError] != RedeemTrace(n)
    ensures var g := [SetUser] + Builds(n) + [Enrich, BuildResult, Merge];
      && StoppedEarly(g, RedeemTrace(n), false) && g != RedeemTrace(n)
      && g + [Send, Update, SaveChanges] == RedeemTrace(n)
  {
    var f := [SetUser] + Builds(k);
    assert Builds(k) == Builds(n)[..k];
    assert f <= RedeemTrace(n);
    assert (f + [LogError])[..|f|] == f;
  }

  /** A failed call takes the steps of a successful one up to the failing
      step, then logs the error when it is answered with a 400. */
  ghost predicate StoppedEarly(trace: seq<Step>, full: seq<Step>, logged: bool) {
    if logged then |trace| > 0 && trace[|trace| - 1] == LogError && trace[..|trace| - 1] <= full
    else trace <= full
  }

  /** Whether a response is an OAuth error answered with a 400, which the
      handler logs. */
  predicate Logged(response: Response) {
    response.Error? && response.status == 400
  }

  /** The backchannel request the validator returns for the authenticated
      client, if both succeed. */
  function Redeemed(authentication: Result<Client, OAuthException>, validate: Client -> Result<BCAuthorize, OAuthException>): set<BCAuthorize> {
    if authentication.Success? && validate(authentication.value).Success? then {validate(authentication.value).value} else {}
  }

  /** The outcome of redeeming a validated request for an authenticated
      client. */
  function RedeemOutcome(builders: seq<TokenBuilder>, profiles: seq<TokenProfile>, users: seq<User>,
                         client: Client, request: BCAuthorize,
                         buildResult: (Client, seq<string>) -> Parameters,
                         params: Parameters): Response
  {
    match RunBuilders(builders, request.scopes, client, FindUser(users, request.userId), params)
    case Failure(e) => ErrorResponse(e)
    case Success(built) => IssueOutcome(profiles, client, request.scopes, buildResult, built)
  }

  /** The outcome of issuing tokens from the builders' output `built`. */
  function IssueOutcome(profiles: seq<TokenProfile>, client: Client, scopes: seq<string>,
                        buildResult: (Client, seq<string>) -> Parameters, built: Parameters): Response
  {
    match SelectProfile(profiles, client.preferredTokenProfile)
    case None => Unhandled(NoMatchingProfile)
    case Some(profile) =>
      match Merged(buildResult(client, scopes), profile.enrich(built))
      case Failure(x) => Unhandled(x)
      case Success(payload) => Ok(payload)
  }

  /** The outcome of `Handle` as a function of its inputs. */
  function HandleOutcome(builders: seq<TokenBuilder>, profiles: seq<TokenProfile>, users: seq<User>,
                         authentication: Result<Client, OAuthException>,
                         validate: Client -> Result<BCAuthorize, OAuthException>,
                         buildResult: (Client, seq<string>) -> Parameters,
                         params: Parameters): Response
  {
    match authentication
    case Failure(e) => ErrorResponse(e)
    case Success(client) =>
      match validate(client)
      case Failure(e) => ErrorResponse(e)
      case Success(request) => RedeemOutcome(builders, profiles, users, client, request, buildResult, params)
  }

  class CIBAHandler {
    const builders: seq<TokenBuilder>
    const profiles: seq<TokenProfile>
    /** The user store, in query order. */
    const users: seq<User>
    const repository: BCAuthorizeRepository

    constructor (builders: seq<TokenBuilder>, profiles: seq<TokenProfile>, users: seq<User>, repository: BCAuthorizeRepository)
      ensures this.builders == builders && this.profiles == profiles && this.users == users && this.repository == repository
    {
      this.builders := builders;
      this.profiles := profiles;
      this.users := users;
      this.repository := repository;
    }

    /** Runs every token builder in registration order over the context's
        response parameters; `ran` counts the builders called. */
    method RunTokenBuilders(ctx: TokenContext, scopes: seq<string>, client: Client, user: Option<User>)
      returns (outcome: Result<Parameters, OAuthException>, ghost ran: nat)
      modifies ctx
      ensures outcome == RunBuilders(builders, scopes, client, user, old(ctx.parameters))
      ensures outcome.Success? ==> ran == |builders| && ctx.parameters == outcome.value
      ensures outcome.Failure? ==> 0 < ran <= |builders|
      ensures outcome.Failure? ==>
        && RunBuilders(builders[..ran - 1], scopes, client, user, old(ctx.parameters)) == Success(ctx.parameters)
        && builders[ran - 1].build(scopes, client, user, ctx.parameters) == Failure(outcome.error)
      ensures ctx.client == old(ctx.client) && ctx.user == old(ctx.user)
    {
      var i := 0;
      while i < |builders|
        invariant 0 <= i <= |builders|
        invariant ctx.client == old(ctx.client) && ctx.user == old(ctx.user)
        invariant RunBuilders(builders, scopes, client, user, old(ctx.parameters))
               == RunBuilders(builders[i..], scopes, client, user, ctx.parameters)
        invariant RunBuilders(builders[..i], scopes, client, user, old(ctx.parameters)) == Success(ctx.parameters)
      {
        var step := builders[i].build(scopes, client, user, ctx.parameters);
        if step.Failure? {
          assert builders[i..][0] == builders[i];
          return Failure(step.error), i + 1;
        }
        assert builders[i..][1..] == builders[i + 1..];
        RunBuildersSnoc(builders, i, scopes, client, user, old(ctx.parameters), ctx.parameters);
        ctx.parameters := step.value;
        i := i + 1;
      }
      assert builders[i..] == [];
      return Success(ctx.parameters), i;
    }

    /** Issues tokens for a validated request: binds its user, runs the
        builders, applies the client's token profile, merges the parameters
        into the result and, only then, marks the request sent and commits
        it. Any failure leaves the request and the store as they were. */
    method Redeem(ctx: TokenContext, client: Client, request: BCAuthorize,
                  buildResult: (Client, seq<string>) -> Parameters)
      returns (response: Response, ghost trace: seq<Step>)
      modifies ctx, repository, request
      ensures response == RedeemOutcome(builders, profiles, users, client, request, buildResult, old(ctx.parameters))
      ensures ctx.client == old(ctx.client) && ctx.user == FindUser(users, request.userId)
      ensures RedeemedParameters(builders, profiles, users, client, request.scopes, request.userId, old(ctx.parameters), ctx.parameters)
      ensures response.Ok? <==> trace == RedeemTrace(|builders|)
      ensures !response.Ok? ==> StoppedEarly(trace, RedeemTrace(|builders|), Logged(response))
      ensures response.Ok? ==>
        request.sent && repository.stored == old(repository.stored) + old(repository.staged)[request.id := true]
      ensures !response.Ok? ==>
        repository.stored == old(repository.stored) && repository.staged == old(repository.staged)
        && request.sent == old(request.sent)
    {
      var user := FindUser(users, request.userId);
      ctx.user := user;
      var built, ran := RunTokenBuilders(ctx, request.scopes, client, user);
      trace := [SetUser] + Builds(ran);
      RedeemSteps(ran, |builders|);
      if built.Failure? {
        response := ErrorResponse(built.error);
        if !built.error.unauthorized { trace := trace + [LogError]; }
        FailedParameters(builders, profiles, users, client, request.scopes, request.userId, old(ctx.parameters),
                         ran - 1, ctx.parameters, built.error);
        return;
      }
      BuiltParameters(builders, profiles, users, client, request.scopes, request.userId, old(ctx.parameters), built.value);
      ghost var rest;
      response, rest := Issue(ctx, client, request, buildResult);
      trace := trace + rest;
    }

    /** What `Redeem` does once every builder has run, their output being
        the context's parameters: applies the client's token profile, builds
        the base result, merges the parameters into it and, only then, marks
        the request sent and commits it. */
    method Issue(ctx: TokenContext, client: Client, request: BCAuthorize,
                 buildResult: (Client, seq<string>) -> Parameters)
      returns (response: Response, ghost trace: seq<Step>)
      modifies ctx, repository, request
      ensures response == IssueOutcome(profiles, client, request.scopes, buildResult, old(ctx.parameters))
      ensures ctx.client == old(ctx.client) && ctx.user == old(ctx.user)
      ensures ctx.parameters == match SelectProfile(profiles, client.preferredTokenProfile)
                                case Some(profile) => profile.enrich(old(ctx.parameters))
                                case None => old(ctx.parameters)
      ensures response.Ok? <==> trace == [Enrich, BuildResult, Merge, Send, Update, SaveChanges]
      ensures !response.Ok? ==> trace == [] || trace == [Enrich, BuildResult, Merge]
      ensures response.Ok? ==>
        request.sent && repository.stored == old(repository.stored) + old(repository.staged)[request.id := true]
      ensures !response.Ok? ==>
        repository.stored == old(repository.stored) && repository.staged == old(repository.staged)
        && request.sent == old(request.sent)
    {
      trace := [];
      var profile := SelectProfile(profiles, client.preferredTokenProfile);
      if profile.None? {
        response := Unhandled(NoMatchingProfile);
        return;
      }
      ctx.parameters := profile.value.enrich(ctx.parameters);
      var result := buildResult(client, request.scopes);
      trace := [Enrich, BuildResult, Merge];
      var merged := MergeParameters(result, ctx.parameters);
      if merged.Failure? {
        response := Unhandled(merged.error);
        return;
      }
      request.Send();
      repository.Update(request);
      repository.SaveChanges();
      trace := trace + [Send, Update, SaveChanges];
      response := Ok(merged.value);
    }

    /** Handles a CIBA token request. `authentication` is the outcome of
        client authentication, `validate` the grant validator and
        `buildResult` the result the base handler builds; `trace` records
        the steps taken. Client authentication comes first and validation
        runs only for an authenticated client; the request is marked sent
        and committed only when tokens are returned, after every other step. */
    method Handle(ctx: TokenContext, authentication: Result<Client, OAuthException>,
                  validate: Client -> Result<BCAuthorize, OAuthException>,
                  buildResult: (Client, seq<string>) -> Parameters)
      returns (response: Response, ghost trace: seq<Step>)
      requires forall r :: r in Redeemed(authentication, validate) ==> allocated(r)
      modifies ctx, repository, Redeemed(authentication, validate)
      ensures response == HandleOutcome(builders, profiles, users, authentication, validate, buildResult, old(ctx.parameters))
      ensures authentication.Failure? ==> ctx.client == old(ctx.client) && ctx.user == old(ctx.user) && ctx.parameters == old(ctx.parameters)
      ensures authentication.Success? ==> ctx.client == Some(authentication.value)
      ensures authentication.Success? && validate(authentication.value).Failure? ==>
        ctx.user == old(ctx.user) && ctx.parameters == old(ctx.parameters)
      ensures authentication.Success? && validate(authentication.value).Success? ==>
        ctx.user == FindUser(users, validate(authentication.value).value.userId)
      ensures authentication.Success? && validate(authentication.value).Success? ==>
        var request := validate(authentication.value).value;
        RedeemedParameters(builders, profiles, users, authentication.value, request.scopes, request.userId,
                           old(ctx.parameters), ctx.parameters)
      ensures response.Ok? <==> trace == SuccessTrace(|builders|)
      ensures !response.Ok? ==> StoppedEarly(trace, SuccessTrace(|builders|), Logged(response))
      ensures response.Ok? ==>
        var request := validate(authentication.value).value;
        request.sent && repository.stored == old(repository.stored) + old(repository.staged)[request.id := true]
      ensures !response.Ok? ==>
        && repository.stored == old(repository.stored) && repository.staged == old(repository.staged)
        && forall r :: r in Redeemed(authentication, validate) ==> r.sent == old(r.sent)
    {
      trace := [Authenticate];
      if authentication.Failure? {
        response := ErrorResponse(authentication.error);
        if !authentication.error.unauthorized { trace := trace + [LogError]; }
        StopBeforeRedeem(trace[..1], |builders|);
        return;
      }
      var client := authentication.value;
      ctx.client := Some(client);
      trace := trace + [SetClient];
      response, trace := ValidateAndRedeem(ctx, client, validate, buildResult, trace);
    }

    /** What `Handle` does once the client is authenticated and bound:
        validation, then redemption of the validated request. `front` is
        the trace so far. */
    method ValidateAndRedeem(ctx: TokenContext, client: Client,
                             validate: Client -> Result<BCAuthorize, OAuthException>,
                             buildResult: (Client, seq<string>) -> Parameters, ghost front: seq<Step>)
      returns (response: Response, ghost trace: seq<Step>)
      requires front == [Authenticate, SetClient]
      requires validate(client).Success? ==> allocated(validate(client).value)
      modifies ctx, repository, Redeemed(Success(client), validate)
      ensures response == HandleOutcome(builders, profiles, users, Success(client), validate, buildResult, old(ctx.parameters))
      ensures ctx.client == old(ctx.client)
      ensures validate(client).Failure? ==> ctx.user == old(ctx.user) && ctx.parameters == old(ctx.parameters)
      ensures validate(client).Success? ==> ctx.user == FindUser(users, validate(client).value.userId)
      ensures validate(client).Success? ==>
        var request := validate(client).value;
        RedeemedParameters(builders, profiles, users, client, request.scopes, request.userId, old(ctx.parameters), ctx.parameters)
      ensures response.Ok? <==> trace == SuccessTrace(|builders|)
      ensures !response.Ok? ==> StoppedEarly(trace, SuccessTrace(|builders|), Logged(response))
      ensures response.Ok? ==>
        var request := validate(client).value;
        request.sent && repository.stored == old(repository.stored) + old(repository.staged)[request.id := true]
      ensures !response.Ok? ==>
        && repository.stored == old(repository.stored) && repository.staged == old(repository.staged)
        && (validate(client).Success? ==> validate(client).value.sent == old(validate(client).value.sent))
    {
      trace := front + [Validate];
      var validated := validate(client);
      if validated.Failure? {
        response := ErrorResponse(validated.error);
        if !validated.error.unauthorized { trace := trace + [LogError]; }
        StopBeforeRedeem(trace[..3], |builders|);
        return;
      }
      ghost var redeemTrace;
      response, redeemTrace := Redeem(ctx, client, validated.value, buildResult);
      FrontThenRedeem(trace, redeemTrace, |builders|, Logged(response));
      trace := trace + redeemTrace;
    }
  }

  /** A call that stops before redeeming took a prefix of the success
      steps, possibly followed by the log entry, and is not a success. */
  lemma StopBeforeRedeem(front: seq<Step>, n: nat)
    requires front == [Authenticate] || front == [Authenticate, SetClient, Validate]
    ensures StoppedEarly(front, SuccessTrace(n), false) && StoppedEarly(front + [LogError], SuccessTrace(n), true)
    ensures front != SuccessTrace(n) && front + [LogError] != SuccessTrace(n)
  {
    assert (front + [LogError])[..|front|] == front;
  }

  /** The redemption's steps, after the front steps, follow the success
      order exactly when they follow the redemption order. */
  lemma FrontThenRedeem(front: seq<Step>, rest: seq<Step>, n: nat, logged: bool)
    requires front == [Authenticate, SetClient, Validate]
    ensures front + rest == SuccessTrace(n) <==> rest == RedeemTrace(n)
    ensures StoppedEarly(rest, RedeemTrace(n), logged) ==> StoppedEarly(front + rest, SuccessTrace(n), logged)
  {
    if front + rest == SuccessTrace(n) {
      assert rest == (front + rest)[3..];
    }
    if logged && |rest| > 0 {
      assert (front + rest)[..|front + rest| - 1] == front + rest[..|rest| - 1];
    }
  }

  /** On success the payload holds every entry of the base result and every
      response parameter as the client's token profile left them. */
  lemma OkPayload(builders: seq<TokenBuilder>, profiles: seq<TokenProfile>, users: seq<User>,
                  client: Client, request: BCAuthorize,
                  buildResult: (Client, seq<string>) -> Parameters, params: Parameters)
    requires RedeemOutcome(builders, profiles, users, client, request, buildResult, params).Ok?
    ensures var built := RunBuilders(builders, request.scopes, client, FindUser(users, request.userId), params).value;
      var profile := SelectProfile(profiles, client.preferredTokenProfile).value;
      var result := buildResult(client, request.scopes);
      var payload := RedeemOutcome(builders, profiles, users, client, request, buildResult, params).payload;
      && profile.profile == client.preferredTokenProfile
      && payload.Keys == result.Keys + profile.enrich(built).Keys
      && (forall k :: k in result ==> payload[k] == result[k])
      && (forall k :: k in profile.enrich(built) ==> payload[k] == profile.enrich(built)[k])
  {
  }
}
