/** Properties of the chain as a whole, across its three services: what the
    gateway does with the issuer's tokens, how the gateway's user
    eligibility relates to the data plane's visibility, and how the
    forwarded payload is read on the other side. */
module Protocol {
  import opened Text
  import opened Values
  import opened Visibility
  import opened Issuer
  import opened DataPlane
  import opened Gateway

  /** The issuer stamps its own name as `iss`, which is not on the gateway's
      allowlist: every token it mints is refused with 403, before the
      client profile is even looked up. */
  lemma IssuedTokensRefused(body: Dict, now: int, req: Request, service: string, action: string, env: Env)
    requires Token(body, now).AccessToken?
    requires req.authHeader != "" && service != "" && action != ""
    requires StartsWith(req.authHeader, "Bearer ")
    requires env.verify(req.authHeader[7..], service) == Verified(Token(body, now).claims)
    ensures Respond(req, service, action, env) == Rejected(UntrustedIssuer)
    ensures Respond(req, service, action, env).Status() == 403
  {
    var claims := Token(body, now).claims;
    assert Get(claims, "iss") == JStr("RAAuth");
    assert !IssuerTrusted(JStr("RAAuth")) by {
      assert "RAAuth"[0] !in {'a', 's', 'c'};
    }
    BearerToken(req.authHeader);
  }

  // ---------------------------------------- eligibility against visibility

  /** A user the gateway counts is enabled for the data plane too:
      "abilitato" is the first of the data plane's flag synonyms. */
  lemma EligibleIsEnabled(u: Dict)
    requires UserEligible(u) == Some(true)
    ensures IsEnabled(u)
  {
    assert Truthy(Get(u, EnabledKeys[0]));
  }

  /** A user the gateway counts because of a checked role that also has a
      description is visible on the data plane, whatever the document. */
  lemma EligibleDescribedIsVisible(u: Dict, doc: Enrollment, i: nat)
    requires Truthy(Get(u, "abilitato"))
    requires "ruoli" in u && u["ruoli"].JArr? && i < |u["ruoli"].items|
    requires u["ruoli"].items[i].JObj?
    requires var r := u["ruoli"].items[i].fields; Truthy(Get(r, "isChecked")) && Truthy(RoleDesc(r))
    ensures ProjectVisible(u, doc).Some?
  {
    var rs := u["ruoli"].items;
    var r := rs[i].fields;
    assert RoleChecked(r);
    assert RoleDesc(r) in ListRole(rs[i]);
    FlatMapMembers(rs, ListRole, RoleDesc(r));
    assert Truthy(Get(u, EnabledKeys[0]));
  }

  /** The gateway can count a user the data plane never shows: a checked
      role without a description gives no effective role. */
  lemma EligibleButNotVisible()
    ensures var u := map["abilitato" := JBool(true), "ruoli" := JArr([JObj(map["isChecked" := JBool(true)])])];
      var doc := Enrollment(JNull, [u], []);
      UserEligible(u) == Some(true) && ProjectVisible(u, doc).None?
  {
    var role := map["isChecked" := JBool(true)];
    var u := map["abilitato" := JBool(true), "ruoli" := JArr([JObj(role)])];
    assert !Truthy(RoleDesc(role));
    assert ListRole(JObj(role)) == [];
    assert FlatMap([JObj(role)], ListRole) == FlatMap([], ListRole) + ListRole(JObj(role));
    assert UserRoles(u) == [];
  }

  /** The data plane can show a user the gateway does not count: enabled
      through another flag synonym, with roles from the document. */
  lemma VisibleButNotEligible()
    ensures var u := map["enabled" := JBool(true)];
      var doc := Enrollment(JNull, [u], [map["desc" := JStr("operatore")]]);
      ProjectVisible(u, doc).Some? && UserEligible(u) == Some(false)
  {
    var u := map["enabled" := JBool(true)];
    var role := map["desc" := JStr("operatore")];
    var doc := Enrollment(JNull, [u], [role]);
    assert Truthy(Get(u, EnabledKeys[1]));
    assert "abilitato" != "enabled";
    assert DictRole(role) == [JStr("operatore")];
    assert FlatMap([role], DictRole) == FlatMap([], DictRole) + DictRole(role);
  }

  // ------------------------------------------------- the forwarded payload

  /** The actions the safelist lists are exactly those the data plane knows:
      any other action reaches the data plane with no parameters and is
      answered 400 there. */
  lemma SafelistNamesKnownActions(action: string)
    ensures action in ParamKeys <==> ActionOf(JStr(action)) != Unknown
  {
    var a := ActionOf(JStr(action));
    if a != Unknown {
      assert action == ActionName(a);
    }
  }

  /** When the token's audience is the service and the profile's appCode is
      a string without surrounding white space, the data plane reads the
      very document whose users the gateway checked. */
  lemma SameDocumentOnBothSides(claims: Dict, action: string, appCode: string, body: Dict, service: string)
    requires appCode == [] || (!IsSpace(appCode[0]) && !IsSpace(appCode[|appCode| - 1]))
    requires service == [] || (!IsSpace(service[0]) && !IsSpace(service[|service| - 1]))
    requires Get(claims, "aud") == JStr(service)
    ensures var p := Payload(claims, action, JStr(appCode), body);
      (JStr(AppCodeOf(p)), ServiceOf(p)) == (JStr(appCode), service)
  {
    StripOfStripped(appCode);
    StripOfStripped(service);
  }

  /** `str()` of an integer has no white space at either end: it is digits
      after an optional minus sign. */
  lemma IntToStringStripped(n: int)
    ensures var t := IntToString(n);
      t != [] && !IsSpace(t[0]) && !IsSpace(t[|t| - 1])
  {
    NatToStringDigits(if n < 0 then -n else n);
  }

  /** A numeric appCode passes the gateway's lookup under the number but is
      sent on as a number, which the data plane reads back as text: it looks
      for a document under the string and answers 404 where the gateway
      found the document. */
  lemma NumericAppCodeMissesDocument(claims: Dict, action: string, body: Dict, doc: Enrollment, n: int, service: string)
    requires service != [] && !IsSpace(service[0]) && !IsSpace(service[|service| - 1])
    requires Get(claims, "aud") == JStr(service) && action != ""
    ensures var store := map[(JNum(n), service) := doc];
      var p := Payload(claims, action, JNum(n), body);
      && AppCodeOf(p) == IntToString(n) && ServiceOf(p) == service
      && Handle(store, p) == Outcome(DataFailure(ServiceNotFound), store)
  {
    var store := map[(JNum(n), service) := doc];
    var p := Payload(claims, action, JNum(n), body);
    IntToStringStripped(n);
    StripOfStripped(IntToString(n));
    StripOfStripped(service);
    ServiceNotFoundWhenAbsent(store, p, ActionOf(p.action), IntToString(n), service);
  }
}
