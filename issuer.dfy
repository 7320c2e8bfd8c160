/** The token issuer (`authorization_server.py`): the client-credential and
    scope decision of `POST /token`, the claim set of the token it mints, and
    the single-key JWK set of `GET /jwks.json`. RS256 signing itself is not
    modelled: a minted token is its protected header and its claims. */
module Issuer {
  import opened Values
  import opened Base64Url

  const ClientId: string := "microA"
  const ClientSecret: string := "12345"
  /** The static list of scopes the issuer accepts. */
  const ValidScopes: seq<string> := ["125455", "125456"]
  const IssuerName: string := "RAAuth"
  const KeyId: string := "raauth-key-1"
  const Algorithm: string := "RS256"
  /** Token lifetime in seconds (`timedelta(minutes=5)`). */
  const TokenLifetime: int := 300

  datatype TokenError = InvalidClient | MissingScope | ScopeNotAuthorized

  function ErrorStatus(e: TokenError): int {
    match e
    case InvalidClient => 401
    case MissingScope => 400
    case ScopeNotAuthorized => 403
  }

  /** The JOSE header `jwt.encode` writes: its type, the algorithm and the
      key id passed in `headers`. */
  datatype JoseHeader = JoseHeader(typ: string, alg: string, kid: string)

  datatype TokenResponse =
    | AccessToken(header: JoseHeader, claims: Dict)
    | TokenRefused(error: TokenError)
  {
    function Status(): int {
      if AccessToken? then 200 else ErrorStatus(error)
    }
  }

  /** The request carries exactly the hard-coded client id and secret. */
  predicate Authenticated(body: Dict) {
    Get(body, "client_id") == JStr(ClientId) && Get(body, "client_secret") == JStr(ClientSecret)
  }

  /** `requested_scope in scope_validi`: only the two strings are members. */
  predicate ValidScope(scope: Json) {
    scope.JStr? && scope.s in ValidScopes
  }

  /** The claims of a minted token; `now` is the issuance time in seconds. */
  function IssuedClaims(scope: Json, now: int): Dict {
    map["iss" := JStr(IssuerName), "sub" := JStr(ClientId), "aud" := scope,
        "scope" := scope, "exp" := JNum(now + TokenLifetime)]
  }

  /** `POST /token` on a body that decodes to a JSON object; a missing,
      non-JSON or non-object body never reaches this decision. */
  function Token(body: Dict, now: int): (r: TokenResponse)
    ensures r.AccessToken? <==> Authenticated(body) && ValidScope(Get(body, "scope"))
    ensures !Authenticated(body) ==> r.Status() == 401
    ensures Authenticated(body) && !Truthy(Get(body, "scope")) ==> r.Status() == 400
    ensures Authenticated(body) && Truthy(Get(body, "scope")) && !ValidScope(Get(body, "scope")) ==>
      r.Status() == 403
    ensures r.AccessToken? ==>
      && r.claims.Keys == {"iss", "sub", "aud", "scope", "exp"}
      && r.claims["iss"] == JStr(IssuerName) && r.claims["sub"] == JStr(ClientId)
      && r.claims["aud"] == r.claims["scope"] == Get(body, "scope")
      && r.claims["exp"] == JNum(now + 300)
      && r.header == JoseHeader("JWT", "RS256", KeyId)
  {
    if !Authenticated(body) then TokenRefused(InvalidClient)
    else
      var scope := Get(body, "scope");
      if !Truthy(scope) then TokenRefused(MissingScope)
      else if !ValidScope(scope) then TokenRefused(ScopeNotAuthorized)
      else AccessToken(JoseHeader("JWT", Algorithm, KeyId), IssuedClaims(scope, now))
  }

  datatype Jwk = Jwk(kty: string, use: string, alg: string, n: string, e: string, kid: string)

  /** `GET /jwks.json` for the public key with modulus `n` and exponent `e`. */
  function Jwks(n: nat, e: nat): seq<Jwk> {
    [Jwk("RSA", "sig", Algorithm, IntToBase64Url(n), IntToBase64Url(e), KeyId)]
  }

  /** The key set holds one RSA signing key whose id and algorithm are those of
      every token header the issuer writes, and whose "n" and "e" members
      decode to the key's modulus and exponent. */
  lemma JwksMatchesTokens(body: Dict, now: int, n: nat, e: nat)
    requires Token(body, now).AccessToken?
    ensures |Jwks(n, e)| == 1
    ensures var k := Jwks(n, e)[0];
      && k.kty == "RSA" && k.use == "sig"
      && k.kid == Token(body, now).header.kid
      && k.alg == Token(body, now).header.alg
      && Decode(k.n).Some? && FromBytes(Decode(k.n).value) == n
      && Decode(k.e).Some? && FromBytes(Decode(k.e).value) == e
  {
    IntToBase64UrlRoundTrip(n);
    IntToBase64UrlRoundTrip(e);
  }
}
