/** The policy enforcement point of the chain (`raauth.py`, `gateway()`):
    input checks, token verification, then a strictly ordered sequence of
    checks over the verified claims, the client profile and the enrollment
    document, each with its own answer; on success a per-action parameter
    safelist builds the payload forwarded to the data plane. Token
    verification and the forward call are parameters; the `clients`
    collection is the sequence of its documents and `serviceRole` the map of
    the data plane. */
module Gateway {
  import opened Text
  import opened Values
  import opened Visibility
  import opened DataPlane

  /** The issuers the gateway trusts. */
  const AllowedIssuers: seq<string> := ["adfs", "spid", "cie"]

  /** `iss not in ALLOWED_ISSUERS` fails: a list of strings contains only
      strings, and Python's `==` between a string and anything else is
      false. */
  predicate IssuerTrusted(iss: Json) {
    iss.JStr? && iss.s in AllowedIssuers
  }

  /** Why the gateway refuses a request. */
  datatype Rejection =
    | MissingInput             // no Authorization header, service or action
    | BadAuthScheme            // the header does not start with "Bearer "
    | TokenExpired             // the signature is good but the token has expired
    | InvalidToken             // any other verification failure
    | UntrustedIssuer          // iss outside the allowlist
    | ClientUnknownOrDisabled  // no enabled client profile for sub
    | IssuerMismatch           // the profile names another issuer
    | ScopeNotPermitted        // the service is not among the profile's scopes
    | ActionNotPermitted       // the action is not granted on that service
    | MissingAppCode           // the profile has no appCode
    | NotEnrolled              // no serviceRole document for (appCode, service)
    | NoEligibleUsers          // no enabled user with a checked role
    | ChainError               // an exception inside the checks
    | UpstreamUnreachable      // the forward failed in transport
  {
    function Status(): int {
      match this
      case MissingInput => 400
      case BadAuthScheme => 400
      case TokenExpired => 401
      case MissingAppCode => 500
      case UpstreamUnreachable => 502
      case _ => 403
    }
  }

  // ------------------------------------------------------ Python membership

  /** Python's `x in container` for a string `x`: element equality on a
      list, substring on a string, key membership on a dict; None where
      Python raises `TypeError` (null, booleans, numbers). */
  function StrIn(x: string, container: Json): Option<bool> {
    match container
    case JArr(xs) => Some(JStr(x) in xs)
    case JStr(s) => Some(Contains(s, x))
    case JObj(m) => Some(x in m)
    case _ => None
  }

  /** Membership in a scope list stored as a string is a substring test: a
      service code that is part of the string passes, where a list holding
      that string lets it through only on equality. */
  lemma ScopeStringMatchesSubstring()
    ensures StrIn("ana", JStr("anagrafe")) == Some(true)
    ensures StrIn("ana", JArr([JStr("anagrafe")])) == Some(false)
  {
    assert OccursAt("anagrafe", "ana", 0);
  }

  // --------------------------------------------------------- client profile

  /** The `clients` query `{"client_id": id, "enabled": True}`: an equality
      match on both fields, where a null `id` also matches an absent field. */
  function Registers(id: Json): Dict -> bool {
    c => Get(c, "client_id") == id && Get(c, "enabled") == JBool(true)
  }

  /** `find_one` on the `clients` collection: the first matching document. */
  function FindClient(clients: seq<Dict>, id: Json): (r: Option<Dict>)
    ensures r.Some? ==>
      r.value in clients && Get(r.value, "client_id") == id && Get(r.value, "enabled") == JBool(true)
  {
    match FirstIndex(clients, Registers(id))
    case None => None
    case Some(i) => Some(clients[i])
  }

  /** A client profile is found exactly when some document is registered
      under `id` and enabled. */
  lemma FindClientFinds(clients: seq<Dict>, id: Json)
    ensures FindClient(clients, id).None? <==>
      forall i :: 0 <= i < |clients| ==> !(Get(clients[i], "client_id") == id && Get(clients[i], "enabled") == JBool(true))
  {
    FirstIndexFirst(clients, Registers(id));
  }

  /** `client_doc.get("allowed_actions", {}).get(service, [])`; None where
      the stored value is not a dict and `.get` raises. */
  function ActionsFor(client: Dict, service: string): Option<Json> {
    match GetOr(client, "allowed_actions", JObj(map[]))
    case JObj(m) => Some(GetOr(m, service, JArr([])))
    case _ => None
  }

  // ------------------------------------------------------------ eligibility

  /** `any(r.get("isChecked") for r in roles[k:])`; None where an element
      reached before the first checked role is not a dict and `.get` raises. */
  function AnyCheckedFrom(roles: seq<Json>, k: nat): Option<bool>
    decreases |roles| - k
  {
    if k >= |roles| then Some(false)
    else if !roles[k].JObj? then None
    else if Truthy(Get(roles[k].fields, "isChecked")) then Some(true)
    else AnyCheckedFrom(roles, k + 1)
  }

  /** On a list of dicts the scan is Python's `any`: it answers true exactly
      when some role has a truthy "isChecked", and never raises. */
  lemma {:induction false} AnyCheckedOfDicts(roles: seq<Json>, k: nat)
    requires forall i :: 0 <= i < |roles| ==> roles[i].JObj?
    ensures AnyCheckedFrom(roles, k).Some?
    ensures AnyCheckedFrom(roles, k).value <==>
      exists i :: k <= i < |roles| && Truthy(Get(roles[i].fields, "isChecked"))
    decreases |roles| - k
  {
    if k < |roles| && !Truthy(Get(roles[k].fields, "isChecked")) {
      AnyCheckedOfDicts(roles, k + 1);
      if exists i :: k <= i < |roles| && Truthy(Get(roles[i].fields, "isChecked")) {
        var i :| k <= i < |roles| && Truthy(Get(roles[i].fields, "isChecked"));
        assert i != k;
      }
    }
  }

  /** A true answer always rests on a checked role dict. */
  lemma {:induction false} AnyCheckedWitness(roles: seq<Json>, k: nat)
    requires AnyCheckedFrom(roles, k) == Some(true)
    ensures exists i :: k <= i < |roles| && roles[i].JObj? && Truthy(Get(roles[i].fields, "isChecked"))
    decreases |roles| - k
  {
    if !Truthy(Get(roles[k].fields, "isChecked")) {
      AnyCheckedWitness(roles, k + 1);
    }
  }

  /** `any` stops at the first checked role: a non-dict after it is never
      looked at, while a non-dict before it raises. */
  lemma AnyCheckedShortCircuits()
    ensures var checked := JObj(map["isChecked" := JBool(true)]);
      && AnyCheckedFrom([checked, JStr("x")], 0) == Some(true)
      && AnyCheckedFrom([JStr("x"), checked], 0).None?
  {
  }

  /** Whether one user passes the comprehension's filter: a truthy
      "abilitato" and some own role with a truthy "isChecked". Iterating a
      string or a dict yields strings, which have no `.get`, so only an empty
      one is harmless; null and numbers are not iterable. None means the
      filter raises. */
  function UserEligible(u: Dict): Option<bool> {
    if !Truthy(Get(u, "abilitato")) then Some(false)
    else match GetOr(u, "ruoli", JArr([]))
      case JArr(roles) => AnyCheckedFrom(roles, 0)
      case JStr(s) => if s == "" then Some(false) else None
      case JObj(m) => if m == map[] then Some(false) else None
      case _ => None
  }

  /** `utenti_validi`: the users that pass the filter, in order; None when
      the filter raises on some user. */
  function EligibleUsers(users: seq<Dict>): Option<seq<Dict>> {
    if users == [] then Some([])
    else
      match EligibleUsers(users[..|users| - 1])
      case None => None
      case Some(vs) =>
        var u := users[|users| - 1];
        match UserEligible(u)
        case None => None
        case Some(b) => Some(if b then vs + [u] else vs)
  }

  /** The comprehension keeps exactly the eligible users, and raises exactly
      when the filter raises on one of them. */
  lemma {:induction false} EligibleUsersMembers(users: seq<Dict>)
    ensures EligibleUsers(users).None? <==> exists i :: 0 <= i < |users| && UserEligible(users[i]).None?
    ensures EligibleUsers(users).Some? ==>
      forall u :: u in EligibleUsers(users).value <==> u in users && UserEligible(u) == Some(true)
  {
    if users != [] {
      var init, last := users[..|users| - 1], users[|users| - 1];
      EligibleUsersMembers(init);
      assert users == init + [last];
      if exists i :: 0 <= i < |users| && UserEligible(users[i]).None? {
        var i :| 0 <= i < |users| && UserEligible(users[i]).None?;
        if i < |init| {
          assert UserEligible(init[i]).None?;
        }
      }
      if EligibleUsers(init).None? {
        var i :| 0 <= i < |init| && UserEligible(init[i]).None?;
        assert users[i] == init[i];
      }
    }
  }

  // ----------------------------------------------------------- the checks

  /** What the checks after token verification see: the verified claims,
      the stripped service and action names, and the two collections. */
  datatype Context = Context(claims: Dict, service: string, action: string,
                             clients: seq<Dict>, store: ServiceStore)

  datatype Decision = Granted(appCode: Json) | Denied(reason: Rejection)

  /** The checks that need the enrollment document: appCode, document,
      eligible users. */
  function Enrol(ctx: Context, appCode: Json): Decision {
    if !Truthy(appCode) then Denied(MissingAppCode)
    else if (appCode, ctx.service) !in ctx.store then Denied(NotEnrolled)
    else
      match EligibleUsers(ctx.store[(appCode, ctx.service)].utenti)
      case None => Denied(ChainError)
      case Some(vs) => if vs == [] then Denied(NoEligibleUsers) else Granted(appCode)
  }

  /** The checks on the client profile: expected issuer, scope, action. */
  function AuthorizeClient(ctx: Context, client: Dict): Decision {
    var expected := Get(client, "issuer");
    if Truthy(expected) && !PyEq(Get(ctx.claims, "iss"), expected) then Denied(IssuerMismatch)
    else
      match StrIn(ctx.service, GetOr(client, "allowed_scopes", JArr([])))
      case None => Denied(ChainError)
      case Some(inScope) =>
        if !inScope then Denied(ScopeNotPermitted)
        else
          match ActionsFor(client, ctx.service)
          case None => Denied(ChainError)
          case Some(actions) =>
            match StrIn(ctx.action, actions)
            case None => Denied(ChainError)
            case Some(granted) =>
              if !granted then Denied(ActionNotPermitted)
              else Enrol(ctx, Get(client, "appCode"))
  }

  /** The chain after token verification, in the source's order. */
  function Authorize(ctx: Context): Decision {
    if !IssuerTrusted(Get(ctx.claims, "iss")) then Denied(UntrustedIssuer)
    else
      match FindClient(ctx.clients, Get(ctx.claims, "sub"))
      case None => Denied(ClientUnknownOrDisabled)
      case Some(client) => AuthorizeClient(ctx, client)
  }

  // -------------------------------------- the checks, one at a time

  /** The eight checks of the chain, each on its own. */
  datatype Check =
    | TrustedIssuer | RegisteredClient | ConsistentIssuer | ScopeGranted
    | ActionGranted | AppCodePresent | ServiceEnrolled | EligibleUserExists

  /** The order in which the source runs them. */
  const ChainOrder: seq<Check> := [TrustedIssuer, RegisteredClient, ConsistentIssuer,
    ScopeGranted, ActionGranted, AppCodePresent, ServiceEnrolled, EligibleUserExists]

  datatype Step = Pass | Fail(reason: Rejection)

  /** A check that needs a missing client profile fails as the registration
      check does. */
  function ClientStep(ctx: Context, c: Check, client: Dict): Step {
    var appCode := Get(client, "appCode");
    match c
    case ConsistentIssuer =>
      var expected := Get(client, "issuer");
      if Truthy(expected) && !PyEq(Get(ctx.claims, "iss"), expected) then Fail(IssuerMismatch) else Pass
    case ScopeGranted =>
      (match StrIn(ctx.service, GetOr(client, "allowed_scopes", JArr([])))
       case None => Fail(ChainError)
       case Some(b) => if b then Pass else Fail(ScopeNotPermitted))
    case ActionGranted =>
      (match ActionsFor(client, ctx.service)
       case None => Fail(ChainError)
       case Some(actions) =>
         match StrIn(ctx.action, actions)
         case None => Fail(ChainError)
         case Some(b) => if b then Pass else Fail(ActionNotPermitted))
    case AppCodePresent => if Truthy(appCode) then Pass else Fail(MissingAppCode)
    case ServiceEnrolled => if (appCode, ctx.service) in ctx.store then Pass else Fail(NotEnrolled)
    case EligibleUserExists =>
      (if (appCode, ctx.service) !in ctx.store then Fail(NotEnrolled)
       else
         match EligibleUsers(ctx.store[(appCode, ctx.service)].utenti)
         case None => Fail(ChainError)
         case Some(vs) => if vs != [] then Pass else Fail(NoEligibleUsers))
    case _ => Pass
  }

  /** What one check says about a context. */
  function Verdict(c: Check, ctx: Context): Step {
    match c
    case TrustedIssuer => if IssuerTrusted(Get(ctx.claims, "iss")) then Pass else Fail(UntrustedIssuer)
    case _ =>
      match FindClient(ctx.clients, Get(ctx.claims, "sub"))
      case None => Fail(ClientUnknownOrDisabled)
      case Some(client) => ClientStep(ctx, c, client)
  }

  function Failing(ctx: Context): Check -> bool {
    c => Verdict(c, ctx).Fail?
  }

  /** The first check in chain order that fails, if any. */
  function FirstFailure(ctx: Context): Option<Rejection> {
    match FirstIndex(ChainOrder, Failing(ctx))
    case None => None
    case Some(i) => Some(Verdict(ChainOrder[i], ctx).reason)
  }

  /** A decision agrees with the checks from position `k` of the chain on: it
      refuses exactly when one of them fails, for the first such one's reason. */
  predicate AgreesFrom(d: Decision, ctx: Context, k: nat) {
    var f := FirstFrom(ChainOrder, Failing(ctx), k);
    && (d.Denied? <==> f.Some?)
    && (d.Denied? ==> d.reason == Verdict(ChainOrder[f.value], ctx).reason)
  }

  /** The enrollment checks are the last three of the chain. */
  lemma EnrolAgrees(ctx: Context, client: Dict)
    requires IssuerTrusted(Get(ctx.claims, "iss"))
    requires FindClient(ctx.clients, Get(ctx.claims, "sub")) == Some(client)
    ensures AgreesFrom(Enrol(ctx, Get(client, "appCode")), ctx, 5)
  {
    var p := Failing(ctx);
    assert FirstFrom(ChainOrder, p, 8) == None;
    var key := (Get(client, "appCode"), ctx.service);
    if !Truthy(key.0) {
      assert FirstFrom(ChainOrder, p, 5) == Some(5);
    } else if key !in ctx.store {
      assert FirstFrom(ChainOrder, p, 5) == Some(6);
    } else {
      assert p(ChainOrder[7]) <==> Enrol(ctx, key.0).Denied?;
    }
  }

  /** The profile checks are the third to the fifth of the chain. */
  lemma AuthorizeClientAgrees(ctx: Context, client: Dict)
    requires IssuerTrusted(Get(ctx.claims, "iss"))
    requires FindClient(ctx.clients, Get(ctx.claims, "sub")) == Some(client)
    ensures AgreesFrom(AuthorizeClient(ctx, client), ctx, 2)
  {
    var p := Failing(ctx);
    EnrolAgrees(ctx, client);
    if !p(ChainOrder[2]) && !p(ChainOrder[3]) && !p(ChainOrder[4]) {
      assert FirstFrom(ChainOrder, p, 2) == FirstFrom(ChainOrder, p, 5);
    }
  }

  /** The chain answers the first failing check in `ChainOrder`, and grants
      exactly when every check passes. */
  lemma AuthorizeIsFirstFailure(ctx: Context)
    ensures Authorize(ctx).Denied? <==> FirstFailure(ctx).Some?
    ensures Authorize(ctx).Denied? ==> Authorize(ctx).reason == FirstFailure(ctx).value
  {
    var p := Failing(ctx);
    if !IssuerTrusted(Get(ctx.claims, "iss")) {
      assert FirstFrom(ChainOrder, p, 0) == Some(0);
    } else {
      assert FirstFrom(ChainOrder, p, 0) == FirstFrom(ChainOrder, p, 1);
      match FindClient(ctx.clients, Get(ctx.claims, "sub"))
      case None =>
        assert FirstFrom(ChainOrder, p, 1) == Some(1);
      case Some(client) =>
        assert FirstFrom(ChainOrder, p, 1) == FirstFrom(ChainOrder, p, 2);
        AuthorizeClientAgrees(ctx, client);
    }
  }

  /** A refusal names a failing check, and every check before it in the
      chain passed. */
  lemma FirstFailureWins(ctx: Context)
    requires Authorize(ctx).Denied?
    ensures exists i ::
      && 0 <= i < |ChainOrder| && Verdict(ChainOrder[i], ctx) == Fail(Authorize(ctx).reason)
      && forall j :: 0 <= j < i ==> Verdict(ChainOrder[j], ctx) == Pass
  {
    AuthorizeIsFirstFailure(ctx);
    FirstIndexFirst(ChainOrder, Failing(ctx));
    var i := FirstIndex(ChainOrder, Failing(ctx)).value;
    assert Verdict(ChainOrder[i], ctx) == Fail(Authorize(ctx).reason);
  }

  /** A grant means every check passed. */
  lemma GrantPassesEveryCheck(ctx: Context)
    requires Authorize(ctx).Granted?
    ensures forall i :: 0 <= i < |ChainOrder| ==> Verdict(ChainOrder[i], ctx) == Pass
  {
    AuthorizeIsFirstFailure(ctx);
    FirstIndexFirst(ChainOrder, Failing(ctx));
  }

  // ---------------------------------------------- properties of the checks

  /** An issuer outside the allowlist is refused before anything else is
      consulted. */
  lemma UntrustedIssuerRefused(ctx: Context)
    ensures Authorize(ctx) == Denied(UntrustedIssuer) <==> !IssuerTrusted(Get(ctx.claims, "iss"))
  {
  }

  /** The expected issuer of a profile is enforced only when it is truthy,
      and then the token's issuer must equal it. */
  lemma ExpectedIssuerOnlyWhenTruthy(ctx: Context, client: Dict)
    requires IssuerTrusted(Get(ctx.claims, "iss"))
    requires FindClient(ctx.clients, Get(ctx.claims, "sub")) == Some(client)
    ensures Authorize(ctx) == Denied(IssuerMismatch) <==>
      Truthy(Get(client, "issuer")) && Get(ctx.claims, "iss") != Get(client, "issuer")
  {
  }

  /** A profile whose `allowed_actions` has no entry for the service, or
      that has no `allowed_actions` at all, grants no action on it. */
  lemma MissingActionsEntryRefuses(ctx: Context, client: Dict)
    requires FindClient(ctx.clients, Get(ctx.claims, "sub")) == Some(client)
    requires GetOr(client, "allowed_actions", JObj(map[])).JObj?
    requires ctx.service !in GetOr(client, "allowed_actions", JObj(map[])).fields
    ensures Verdict(ActionGranted, ctx) == Fail(ActionNotPermitted)
    ensures Authorize(ctx).Granted? == false
  {
    AuthorizeIsFirstFailure(ctx);
    FirstIndexFirst(ChainOrder, Failing(ctx));
    assert ChainOrder[4] == ActionGranted;
    assert Failing(ctx)(ChainOrder[4]);
  }

  /** A grant is for the profile's appCode, on an enrolled document with at
      least one enabled user that has a checked role of their own. */
  lemma GrantMeansEligibleUser(ctx: Context)
    requires Authorize(ctx).Granted?
    ensures var key := (Authorize(ctx).appCode, ctx.service);
      && Truthy(key.0) && key in ctx.store
      && exists u :: u in ctx.store[key].utenti && UserEligible(u) == Some(true)
  {
    var client := FindClient(ctx.clients, Get(ctx.claims, "sub")).value;
    var key := (Get(client, "appCode"), ctx.service);
    var vs := EligibleUsers(ctx.store[key].utenti).value;
    EligibleUsersMembers(ctx.store[key].utenti);
    assert vs[0] in vs;
  }

  // --------------------------------------------------- parameter safelist

  /** `ALLOWED_PARAM_KEYS`. */
  const ParamKeys: map<string, seq<string>> := map[
    "read" := ["page", "size", "q", "sort"],
    "search" := ["page", "size", "q", "sort"],
    "get_user" := ["cf"],
    "disable_user" := ["cf"],
    "enable_user" := ["cf"],
    "assign_role" := ["cf", "role_code", "role_desc"],
    "remove_role" := ["cf", "role_code", "role_desc"],
    "export_users" := ["q", "sort"]]

  /** `ALLOWED_PARAM_KEYS.get(action, [])`. */
  function AllowedParamKeys(action: string): seq<string> {
    if action in ParamKeys then ParamKeys[action] else []
  }

  /** The dict the safelist loop builds from the keys `keys`, in order. */
  function SafeParams(keys: seq<string>, body: Dict): Dict {
    if keys == [] then map[]
    else
      var params, k := SafeParams(keys[..|keys| - 1], body), keys[|keys| - 1];
      if k in body then params[k := body[k]] else params
  }

  /** The safelist keeps exactly the listed keys the body has, with the
      body's values. */
  lemma {:induction false} SafeParamsExactly(keys: seq<string>, body: Dict)
    ensures forall k :: k in SafeParams(keys, body) <==> k in keys && k in body
    ensures forall k :: k in SafeParams(keys, body) ==> SafeParams(keys, body)[k] == body[k]
  {
    if keys != [] {
      var init := keys[..|keys| - 1];
      SafeParamsExactly(init, body);
      assert keys == init + [keys[|keys| - 1]];
    }
  }

  /** The loop at the end of the chain: copy each allowed key the body has. */
  method CopyAllowedParams(keys: seq<string>, body: Dict) returns (params: Dict)
    ensures params == SafeParams(keys, body)
  {
    params := map[];
    var i := 0;
    while i < |keys|
      invariant 0 <= i <= |keys|
      invariant params == SafeParams(keys[..i], body)
    {
      assert keys[..i + 1][..i] == keys[..i];
      if keys[i] in body {
        params := params[keys[i] := body[keys[i]]];
      }
      i := i + 1;
    }
    assert keys[..i] == keys;
  }

  /** Forwarded parameters are allowed for the action and present in the
      body, with the body's values; an action without a safelist entry
      forwards none. */
  lemma ForwardedParamsAllowed(action: string, body: Dict)
    ensures var params := SafeParams(AllowedParamKeys(action), body);
      && (forall k :: k in params <==> k in AllowedParamKeys(action) && k in body)
      && (forall k :: k in params ==> params[k] == body[k])
      && (action !in ParamKeys ==> params == map[])
  {
    SafeParamsExactly(AllowedParamKeys(action), body);
  }

  /** The payload forwarded to the data plane: the verified claims, the
      action, the profile's appCode and the safelisted parameters. */
  function Payload(claims: Dict, action: string, appCode: Json, body: Dict): DataRequest {
    DataRequest(claims, JStr(action), appCode, SafeParams(AllowedParamKeys(action), body))
  }

  // --------------------------------------------------------------- endpoint

  /** A request as the gateway receives it: the Authorization header ("" when
      absent) and the decoded JSON body (`{}` when absent, not JSON or falsy); a truthy
      body that is not an object is not modelled. */
  datatype Request = Request(authHeader: string, body: Dict)

  /** Signature, audience and expiry verification of a token for a service. */
  datatype VerifyResult = Verified(claims: Dict) | Expired | Invalid

  /** The forward to the data plane: its status and body, or a transport
      failure. */
  datatype ForwardResult = Delivered(status: int, body: Json) | Unreachable

  /** What the gateway needs besides the request: the verifier, both
      collections and the forward call. */
  datatype Env = Env(verify: (string, string) -> VerifyResult, clients: seq<Dict>,
                     store: ServiceStore, forward: DataRequest -> ForwardResult)

  datatype Response =
    | Rejected(reason: Rejection)
    | Relayed(status: int, claims: Dict, body: Json)
  {
    function Status(): int {
      if Rejected? then reason.Status() else status
    }
  }

  /** `str(body.get(key, "")).strip()`. */
  function BodyText(body: Dict, key: string): string {
    Strip(Str(GetOr(body, key, JStr(""))))
  }

  function IsBlank(): char -> bool {
    c => c == ' '
  }

  /** `auth_header.split(" ", 1)[1]`: the text after the first space, None
      where there is no space and the indexing raises. */
  function AfterFirstSpace(h: string): Option<string> {
    match FirstIndex(h, IsBlank())
    case None => None
    case Some(i) => Some(h[i + 1..])
  }

  /** The header splits at its first space into a space-free head and the
      token; a header without a space has no token. */
  lemma AfterFirstSpaceSplits(h: string)
    ensures AfterFirstSpace(h).None? <==> ' ' !in h
    ensures AfterFirstSpace(h).Some? ==>
      var t := AfterFirstSpace(h).value;
      && |t| < |h| && h == h[..|h| - |t| - 1] + " " + t && ' ' !in h[..|h| - |t| - 1]
  {
    FirstIndexFirst(h, IsBlank());
    if AfterFirstSpace(h).Some? {
      var i := FirstIndex(h, IsBlank()).value;
      assert h == h[..i] + " " + h[i + 1..];
    }
  }

  /** Behind the "Bearer " prefix the token is the rest of the header. */
  lemma BearerToken(h: string)
    requires StartsWith(h, "Bearer ")
    ensures AfterFirstSpace(h) == Some(h[7..])
  {
    var p := IsBlank();
    assert h[..7] == "Bearer ";
    assert h[6] == ' ' && h[5] == 'r' && h[4] == 'e' && h[3] == 'r';
    assert h[2] == 'a' && h[1] == 'e' && h[0] == 'B';
    assert FirstFrom(h, p, 6) == Some(6);
    assert FirstFrom(h, p, 4) == Some(6);
    assert FirstFrom(h, p, 2) == Some(6);
    assert FirstFrom(h, p, 0) == Some(6);
  }

  /** `gateway()` once the service and action names are read from the body. */
  function Respond(req: Request, service: string, action: string, env: Env): Response {
    var h := req.authHeader;
    if h == "" || service == "" || action == "" then Rejected(MissingInput)
    else if !StartsWith(h, "Bearer ") then Rejected(BadAuthScheme)
    else
      BearerToken(h);
      match env.verify(AfterFirstSpace(h).value, service)
      case Expired => Rejected(TokenExpired)
      case Invalid => Rejected(InvalidToken)
      case Verified(claims) =>
        match Authorize(Context(claims, service, action, env.clients, env.store))
        case Denied(r) => Rejected(r)
        case Granted(appCode) =>
          match env.forward(Payload(claims, action, appCode, req.body))
          case Unreachable => Rejected(UpstreamUnreachable)
          case Delivered(status, body) => Relayed(status, claims, body)
  }

  /** `gateway()`. */
  function Decide(req: Request, env: Env): Response {
    Respond(req, BodyText(req.body, "service"), BodyText(req.body, "action"), env)
  }

  /** The endpoint: the checks in order, the safelist loop, the forward. */
  method Serve(req: Request, env: Env) returns (resp: Response)
    ensures resp == Decide(req, env)
  {
    var service := BodyText(req.body, "service");
    var action := BodyText(req.body, "action");
    var h := req.authHeader;
    if h == "" || service == "" || action == "" {
      return Rejected(MissingInput);
    }
    if !StartsWith(h, "Bearer ") {
      return Rejected(BadAuthScheme);
    }
    BearerToken(h);
    var token := h[7..];
    var verified := env.verify(token, service);
    if verified.Expired? {
      return Rejected(TokenExpired);
    } else if verified.Invalid? {
      return Rejected(InvalidToken);
    }
    var decision := Authorize(Context(verified.claims, service, action, env.clients, env.store));
    if decision.Denied? {
      return Rejected(decision.reason);
    }
    var params := CopyAllowedParams(AllowedParamKeys(action), req.body);
    var payload := DataRequest(verified.claims, JStr(action), decision.appCode, params);
    var forwarded := env.forward(payload);
    if forwarded.Unreachable? {
      return Rejected(UpstreamUnreachable);
    }
    return Relayed(forwarded.status, verified.claims, forwarded.body);
  }

  // ------------------------------------------------------ endpoint lemmas

  /** 400 for a missing header, service or action, checked before anything
      else, and only then. */
  lemma MissingInputFirst(req: Request, service: string, action: string, env: Env)
    ensures Respond(req, service, action, env) == Rejected(MissingInput) <==>
      req.authHeader == "" || service == "" || action == ""
  {
  }

  /** With all three present, 400 for a scheme other than "Bearer ", and
      only then. */
  lemma BearerRequired(req: Request, service: string, action: string, env: Env)
    requires req.authHeader != "" && service != "" && action != ""
    ensures Respond(req, service, action, env) == Rejected(BadAuthScheme) <==>
      !StartsWith(req.authHeader, "Bearer ")
  {
  }

  /** The gateway answers one of its own codes, or relays the data plane's. */
  lemma GatewayStatus(req: Request, service: string, action: string, env: Env)
    ensures var r := Respond(req, service, action, env);
      r.Rejected? ==> r.Status() in {400, 401, 403, 500, 502}
  {
  }

  /** Token failures: 401 for an expired token, 403 for any other failure,
      whatever the rest of the request says. */
  lemma VerificationFailures(req: Request, service: string, action: string, env: Env)
    requires req.authHeader != "" && service != "" && action != ""
    requires StartsWith(req.authHeader, "Bearer ")
    ensures var v := env.verify(req.authHeader[7..], service);
      && (v.Expired? ==> Respond(req, service, action, env).Status() == 401)
      && (v.Invalid? ==> Respond(req, service, action, env).Status() == 403)
  {
    BearerToken(req.authHeader);
  }

  /** A relayed answer is the data plane's status and body for exactly the
      payload built from the verified claims, the action, the granted appCode
      and the safelisted parameters. */
  lemma RelayedAnswersPayload(req: Request, service: string, action: string, env: Env)
    requires Respond(req, service, action, env).Relayed?
    ensures var r := Respond(req, service, action, env);
      && StartsWith(req.authHeader, "Bearer ")
      && env.verify(req.authHeader[7..], service) == Verified(r.claims)
      && var ctx := Context(r.claims, service, action, env.clients, env.store);
      && Authorize(ctx).Granted?
      && env.forward(Payload(r.claims, action, Authorize(ctx).appCode, req.body)) == Delivered(r.status, r.body)
  {
    BearerToken(req.authHeader);
  }
}
