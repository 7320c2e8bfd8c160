/** The `/data` endpoint of the data plane (`resource_server.py`): it reads
    the service code from the forwarded claims, loads the `serviceRole`
    document for (appCode, service) and dispatches on the action. Reads,
    searches and exports list the visible users; `get_user` returns one user;
    the four write actions rewrite one element of the document's `utenti`
    list. The collection is a map from (appCode, codServizio) to the
    document; `update_one` replaces the document's `utenti`. */
module DataPlane {
  import opened Text
  import opened Values
  import opened Visibility
  import opened Query
  import opened UserEdit

  /** The `serviceRole` collection, keyed by the stored `appCode` value and
      the service code. */
  type ServiceStore = map<(Json, string), Enrollment>

  /** A decoded `/data` body. An absent "claims" or "params" is the empty
      dict, an absent "action" is null and an absent "appCode" is "". */
  datatype DataRequest = DataRequest(claims: Dict, action: Json, appCode: Json, params: Dict)

  /** The actions the handler knows, and `Unknown` for any other value. */
  datatype Action =
    | Read | Search | ExportUsers | GetUser
    | DisableUser | EnableUser | AssignRole | RemoveRole
    | Unknown
  {
    predicate IsList() { Read? || Search? || ExportUsers? }
    predicate IsWrite() { DisableUser? || EnableUser? || AssignRole? || RemoveRole? }
  }

  /** The wire name of a known action. */
  function ActionName(a: Action): string {
    match a
    case Read => "read"
    case Search => "search"
    case ExportUsers => "export_users"
    case GetUser => "get_user"
    case DisableUser => "disable_user"
    case EnableUser => "enable_user"
    case AssignRole => "assign_role"
    case RemoveRole => "remove_role"
    case Unknown => ""
  }

  /** The action a request's "action" value names: the handler compares it
      with the eight names, so only those exact strings are known. */
  function ActionOf(j: Json): (a: Action)
    ensures a != Unknown ==> j == JStr(ActionName(a))
  {
    if j == JStr("read") then Read
    else if j == JStr("search") then Search
    else if j == JStr("export_users") then ExportUsers
    else if j == JStr("get_user") then GetUser
    else if j == JStr("disable_user") then DisableUser
    else if j == JStr("enable_user") then EnableUser
    else if j == JStr("assign_role") then AssignRole
    else if j == JStr("remove_role") then RemoveRole
    else Unknown
  }

  /** Each name is recognised as its own action. */
  lemma ActionNamesRecognised(a: Action)
    requires a != Unknown
    ensures ActionOf(JStr(ActionName(a))) == a
  {
    match a
    case Read =>
    case Search =>
      assert "search"[0] != "read"[0];
    case ExportUsers =>
      assert "export_users"[0] != "read"[0] && "export_users"[0] != "search"[0];
    case GetUser =>
      assert |"get_user"| != |"read"| && |"get_user"| != |"search"| && |"get_user"| != |"export_users"|;
    case DisableUser =>
      assert "disable_user"[0] !in {'r', 's', 'e', 'g'};
    case EnableUser =>
      assert "enable_user"[0] !in {'r', 's', 'g', 'd'};
      assert "enable_user"[1] != "export_users"[1];
    case AssignRole =>
      assert "assign_role"[0] !in {'r', 's', 'e', 'g', 'd'};
    case RemoveRole =>
      assert |"remove_role"| !in {4, 6, 12, 8};
      assert "remove_role"[0] !in {'d', 'e', 'a'};
  }

  datatype DataError =
    | MissingParameters   // no action, appCode or aud
    | ServiceNotFound     // no document for (appCode, aud)
    | CfMissing           // the canonical cf is empty
    | UserNotFound        // no user with that canonical CF
    | UserNotVisible      // get_user on a user that is not visible
    | RoleMissing         // assign/remove without role_desc or role_code
    | UnknownAction       // any other action
    | InternalError       // the handler raises
  {
    function Status(): int {
      match this
      case MissingParameters => 400
      case ServiceNotFound => 404
      case CfMissing => 400
      case UserNotFound => 404
      case UserNotVisible => 403
      case RoleMissing => 400
      case UnknownAction => 400
      case InternalError => 500
    }
  }

  datatype DataResponse =
    | UserPage(service: string, descrizioneApp: Json, count: nat, page: int, size: int,
               users: seq<Projection>, claims: Dict)
    | CsvExport(filename: string, rows: seq<seq<string>>)
    | UserDetail(user: Projection)
    | WriteDone(action: Action, cf: string)
    | DataFailure(error: DataError)
  {
    function Status(): int {
      if DataFailure? then error.Status() else 200
    }
  }

  /** What one request answers and the collection it leaves behind. */
  datatype Outcome = Outcome(response: DataResponse, store: ServiceStore)

  /** `str(body.get("appCode", "")).strip()`. */
  function AppCodeOf(req: DataRequest): string {
    Strip(Str(req.appCode))
  }

  /** `str(claims.get("aud", "")).strip()`: the service code. */
  function ServiceOf(req: DataRequest): string {
    Strip(Str(GetOr(req.claims, "aud", JStr(""))))
  }

  /** Python's `int(x)` on a number or a boolean; None where it raises. */
  function AsInt(j: Json): Option<int> {
    match j
    case JNum(n) => Some(n)
    case JBool(b) => Some(if b then 1 else 0)
    case _ => None
  }

  /** A query or sort parameter as text: a string as itself, anything falsy
      as "" (both helpers treat a falsy value as "no filter"). */
  function TextOf(j: Json): string {
    if j.JStr? then j.s else ""
  }

  /** Whether `q.strip()` or `sort.lstrip()` would be called on a value that
      is not a string: a truthy non-string sort key always raises; a truthy
      non-string query raises once there is a visible user to test. */
  predicate ListParamsRaise(visible: seq<Projection>, q: Json, sort: Json) {
    (visible != [] && Truthy(q) && !q.JStr?) || (Truthy(sort) && !sort.JStr?)
  }

  /** Whether a user's canonical CF is `cf`, as a test on users. */
  function HasCf(cf: string): Dict -> bool {
    u => CanonCf(Get(u, "CF")) == cf
  }

  /** `next(u for u in raw_users if canon_cf(u.get("CF")) == cf)`, as an
      index. */
  function FindUser(users: seq<Dict>, cf: string): (r: Option<nat>)
    ensures r.Some? ==> r.value < |users| && CanonCf(Get(users[r.value], "CF")) == cf
  {
    FirstIndex(users, HasCf(cf))
  }

  /** `FindUser` answers the first user with the canonical CF, and nothing
      exactly when no user has it. */
  lemma FindUserFirst(users: seq<Dict>, cf: string)
    ensures FindUser(users, cf).Some? ==>
      forall j :: 0 <= j < FindUser(users, cf).value ==> CanonCf(Get(users[j], "CF")) != cf
    ensures FindUser(users, cf).None? ==> forall j :: 0 <= j < |users| ==> CanonCf(Get(users[j], "CF")) != cf
  {
    FirstIndexFirst(users, HasCf(cf));
  }

  /** The read, search and export branch. */
  function ListResponse(doc: Enrollment, req: DataRequest, action: Action, appCode: string, service: string): (r: DataResponse)
    ensures r.UserPage? || r.CsvExport? || r == DataFailure(InternalError)
  {
    var q, sort := Get(req.params, "q"), Get(req.params, "sort");
    if ListParamsRaise(VisibleUsers(doc.utenti, doc), q, sort) then DataFailure(InternalError)
    else
      var listed := Listing(doc, TextOf(q), TextOf(sort));
      if action == ExportUsers then
        match ExportRows(listed)
        case None => DataFailure(InternalError)
        case Some(rows) =>
          CsvExport("users_" + appCode + "_" + service + ".csv", rows)
      else
        match (AsInt(GetOr(req.params, "page", JNum(1))), AsInt(GetOr(req.params, "size", JNum(25))))
        case (Some(page), Some(size)) =>
          UserPage(service, doc.descrizioneApp, |listed|, page, size,
                   Paginate(listed, page, size).0, req.claims)
        case _ => DataFailure(InternalError)
  }

  /** The `get_user` branch. */
  function GetUserResponse(doc: Enrollment, req: DataRequest): (r: DataResponse)
    ensures r.UserDetail? || r in {DataFailure(CfMissing), DataFailure(UserNotFound), DataFailure(UserNotVisible)}
  {
    var cf := CanonCf(Get(req.params, "cf"));
    if cf == "" then DataFailure(CfMissing)
    else match FindUser(doc.utenti, cf)
      case None => DataFailure(UserNotFound)
      case Some(i) =>
        match ProjectVisible(doc.utenti[i], doc)
        case None => DataFailure(UserNotVisible)
        case Some(p) => UserDetail(p)
  }

  /** The edited copy of user `u` for a write action; None when assign or
      remove has neither a truthy role_desc nor a non-null role_code. */
  function EditedUser(u: Dict, action: Action, params: Dict): Option<Dict>
    requires action.IsWrite()
  {
    match action
    case DisableUser => Some(SetEnabled(u, false))
    case EnableUser => Some(SetEnabled(u, true))
    case _ =>
      var code, desc := Get(params, "role_code"), Get(params, "role_desc");
      if !Truthy(desc) && code == JNull then None
      else Some(UpsertRole(u, code, desc, action == AssignRole))
  }

  /** The write branch: locate the user, edit a copy, store the new list. */
  function WriteOutcome(store: ServiceStore, key: (Json, string), req: DataRequest, action: Action): (o: Outcome)
    requires key in store && action.IsWrite()
    ensures o.response.WriteDone? || o.response in {DataFailure(CfMissing), DataFailure(UserNotFound), DataFailure(RoleMissing)}
    ensures !o.response.WriteDone? ==> o.store == store
    ensures o.store.Keys == store.Keys && |o.store[key].utenti| == |store[key].utenti|
  {
    var doc := store[key];
    var cf := CanonCf(Get(req.params, "cf"));
    if cf == "" then Outcome(DataFailure(CfMissing), store)
    else match FindUser(doc.utenti, cf)
      case None => Outcome(DataFailure(UserNotFound), store)
      case Some(i) =>
        match EditedUser(doc.utenti[i], action, req.params)
        case None => Outcome(DataFailure(RoleMissing), store)
        case Some(u) =>
          Outcome(WriteDone(action, cf), store[key := doc.(utenti := doc.utenti[i := u])])
  }

  /** The handler once the action, the appCode and the service code are
      decoded: the checks in the handler's order, then dispatch on the action. */
  function Dispatch(store: ServiceStore, req: DataRequest, action: Action, appCode: string, service: string): Outcome {
    if !Truthy(req.action) || appCode == "" || service == "" then
      Outcome(DataFailure(MissingParameters), store)
    else
      var key := (JStr(appCode), service);
      if key !in store then Outcome(DataFailure(ServiceNotFound), store)
      else if action.IsList() then Outcome(ListResponse(store[key], req, action, appCode, service), store)
      else if action == GetUser then Outcome(GetUserResponse(store[key], req), store)
      else if action.IsWrite() then WriteOutcome(store, key, req, action)
      else Outcome(DataFailure(UnknownAction), store)
  }

  /** `protected_data`. */
  function Handle(store: ServiceStore, req: DataRequest): Outcome {
    Dispatch(store, req, ActionOf(req.action), AppCodeOf(req), ServiceOf(req))
  }

  // ----------------------------------------------------------------- lemmas

  /** Every answer is 200 or one of the handler's error codes. */
  lemma StatusCodes(store: ServiceStore, req: DataRequest, action: Action, appCode: string, service: string)
    ensures Dispatch(store, req, action, appCode, service).response.Status() in {200, 400, 403, 404, 500}
  {
  }

  /** A missing action, appCode or service code is answered 400 before the
      collection is consulted, and only then. */
  lemma MissingParametersFirst(store: ServiceStore, req: DataRequest, action: Action, appCode: string, service: string)
    ensures Dispatch(store, req, action, appCode, service).response == DataFailure(MissingParameters) <==>
      !Truthy(req.action) || appCode == "" || service == ""
  {
  }

  /** With the parameters present, 404 for the service exactly when no
      document has the stripped appCode and service code. */
  lemma ServiceNotFoundWhenAbsent(store: ServiceStore, req: DataRequest, action: Action, appCode: string, service: string)
    requires Truthy(req.action) && appCode != "" && service != ""
    ensures Dispatch(store, req, action, appCode, service).response == DataFailure(ServiceNotFound) <==>
      (JStr(appCode), service) !in store
  {
  }

  /** Any action other than the eight known ones is answered 400 once the
      document exists, and changes nothing. */
  lemma UnknownActionRejected(store: ServiceStore, req: DataRequest, action: Action, appCode: string, service: string)
    requires Truthy(req.action) && appCode != "" && service != ""
    requires (JStr(appCode), service) in store
    requires action == Unknown
    ensures Dispatch(store, req, action, appCode, service) == Outcome(DataFailure(UnknownAction), store)
  {
  }

  /** Only a successful write changes the collection. */
  lemma OnlyWritesChangeStore(store: ServiceStore, req: DataRequest, action: Action, appCode: string, service: string)
    ensures !Dispatch(store, req, action, appCode, service).response.WriteDone? ==> Dispatch(store, req, action, appCode, service).store == store
    ensures Dispatch(store, req, action, appCode, service).response.WriteDone? ==> action.IsWrite()
  {
    if Truthy(req.action) && appCode != "" && service != "" && (JStr(appCode), service) in store {
      DispatchRoutes(store, req, action, appCode, service);
    }
  }

  /** With the parameters present and the document found, each known action
      is answered by its branch: list actions and `get_user` leave the
      collection as it is, the write actions go through `WriteOutcome`. */
  lemma DispatchRoutes(store: ServiceStore, req: DataRequest, action: Action, appCode: string, service: string)
    requires Truthy(req.action) && appCode != "" && service != ""
    requires (JStr(appCode), service) in store
    ensures var key := (JStr(appCode), service);
      var o := Dispatch(store, req, action, appCode, service);
      && (action.IsList() ==> o == Outcome(ListResponse(store[key], req, action, appCode, service), store))
      && (action == GetUser ==> o == Outcome(GetUserResponse(store[key], req), store))
      && (action.IsWrite() ==> o == WriteOutcome(store, key, req, action))
  {
  }

  /** A successful write replaces one element of one document's `utenti`:
      the first user with the requested canonical CF, by the edited copy of
      that user. The other documents, the other users, the document's own
      roles and description are unchanged. */
  lemma WriteTouchesOneUser(store: ServiceStore, key: (Json, string), req: DataRequest, action: Action)
    requires key in store && action.IsWrite()
    requires WriteOutcome(store, key, req, action).response.WriteDone?
    ensures var cf := CanonCf(Get(req.params, "cf"));
      && cf != "" && WriteOutcome(store, key, req, action).response == WriteDone(action, cf)
      && var doc := store[key];
      && FindUser(doc.utenti, cf).Some?
      && var i := FindUser(doc.utenti, cf).value;
      && EditedUser(doc.utenti[i], action, req.params).Some?
      && WriteOutcome(store, key, req, action).store ==
           store[key := Enrollment(doc.descrizioneApp,
                                   doc.utenti[i := EditedUser(doc.utenti[i], action, req.params).value],
                                   doc.ruoli)]
  {
  }

  /** `enable_user` writes the flag as true, so the edited user is enabled. */
  lemma EnableUserEnables(u: Dict, params: Dict)
    ensures EditedUser(u, EnableUser, params) == Some(SetEnabled(u, true))
    ensures IsEnabled(SetEnabled(u, true))
  {
    EnableMakesEnabled(u);
  }

  /** `assign_role` with a truthy role_desc makes an enabled user visible in
      any document: the user now has an own role, which takes priority over
      the document's, and the enablement flags are untouched. */
  lemma AssignMakesEnabledUserVisible(u: Dict, params: Dict, doc: Enrollment)
    requires IsEnabled(u) && Truthy(Get(params, "role_desc"))
    ensures EditedUser(u, AssignRole, params).Some?
    ensures ProjectVisible(EditedUser(u, AssignRole, params).value, doc).Some?
  {
    var code, desc := Get(params, "role_code"), Get(params, "role_desc");
    var w := UpsertRole(u, code, desc, true);
    assert EditedUser(u, AssignRole, params) == Some(w);
    AssignGivesOwnRole(u, code, desc);
    UpsertKeepsEnabled(u, code, desc, true);
  }

  /** `get_user` answers the projection of the first user with the requested
      canonical CF when that user is visible, and 403 when the user exists
      but is not visible. */
  lemma GetUserAnswers(doc: Enrollment, req: DataRequest)
    ensures var cf := CanonCf(Get(req.params, "cf"));
      var r := GetUserResponse(doc, req);
      && (r == DataFailure(CfMissing) <==> cf == "")
      && (cf != "" ==> (r == DataFailure(UserNotFound) <==> FindUser(doc.utenti, cf).None?))
      && (cf != "" && FindUser(doc.utenti, cf).Some? ==>
            var u := doc.utenti[FindUser(doc.utenti, cf).value];
            && (r == DataFailure(UserNotVisible) <==> ProjectVisible(u, doc).None?)
            && (r.UserDetail? ==> Some(r.user) == ProjectVisible(u, doc)))
  {
  }

  /** A read or search page holds the listed users (visible, matching,
      sorted) from the requested page, and counts all of them. */
  lemma ReadReturnsListing(doc: Enrollment, req: DataRequest, action: Action, appCode: string, service: string)
    requires ListResponse(doc, req, action, appCode, service).UserPage?
    ensures var r := ListResponse(doc, req, action, appCode, service);
      var listed := Listing(doc, TextOf(Get(req.params, "q")), TextOf(Get(req.params, "sort")));
      && action != ExportUsers
      && r.count == |listed|
      && r.users == Paginate(listed, r.page, r.size).0
      && Some(r.page) == AsInt(GetOr(req.params, "page", JNum(1)))
      && Some(r.size) == AsInt(GetOr(req.params, "size", JNum(25)))
      && r.service == service && r.claims == req.claims
  {
  }

  /** An export writes the header and one row per listed user, unpaginated. */
  lemma ExportReturnsListing(doc: Enrollment, req: DataRequest, action: Action, appCode: string, service: string)
    requires ListResponse(doc, req, action, appCode, service).CsvExport?
    ensures var r := ListResponse(doc, req, action, appCode, service);
      var listed := Listing(doc, TextOf(Get(req.params, "q")), TextOf(Get(req.params, "sort")));
      && action == ExportUsers
      && ExportRows(listed) == Some(r.rows)
      && r.filename == "users_" + appCode + "_" + service + ".csv"
  {
  }

  /** A listing fails, with a 500, exactly when the handler meets a value it
      cannot read: a non-string query or sort key, a role that is not a
      string in an export, or a page or size that is not an integer. */
  lemma ListFailureIsRaise(doc: Enrollment, req: DataRequest, action: Action, appCode: string, service: string)
    ensures ListResponse(doc, req, action, appCode, service).DataFailure? <==>
      ListParamsRaise(VisibleUsers(doc.utenti, doc), Get(req.params, "q"), Get(req.params, "sort"))
      || (action == ExportUsers &&
          ExportRows(Listing(doc, TextOf(Get(req.params, "q")), TextOf(Get(req.params, "sort")))).None?)
      || (action != ExportUsers &&
          (AsInt(GetOr(req.params, "page", JNum(1))).None? || AsInt(GetOr(req.params, "size", JNum(25))).None?))
  {
  }

  /** The write branch answers 400 exactly for an empty CF, 404 exactly
      when no user has it, 400 exactly when assign or remove names no role,
      and otherwise writes and answers success. */
  lemma WriteAnswers(store: ServiceStore, key: (Json, string), req: DataRequest, action: Action)
    requires key in store && action.IsWrite()
    ensures var cf := CanonCf(Get(req.params, "cf"));
      var r := WriteOutcome(store, key, req, action).response;
      && (r == DataFailure(CfMissing) <==> cf == "")
      && (cf != "" ==> (r == DataFailure(UserNotFound) <==> FindUser(store[key].utenti, cf).None?))
      && (cf != "" && FindUser(store[key].utenti, cf).Some? ==>
            var u := store[key].utenti[FindUser(store[key].utenti, cf).value];
            && (r == DataFailure(RoleMissing) <==> EditedUser(u, action, req.params).None?)
            && (EditedUser(u, action, req.params).Some? ==> r == WriteDone(action, cf)))
  {
  }

  // ------------------------------------------------------------- the store

  /** The `serviceRole` collection as the handler sees it. */
  class ServiceRoleCollection {
    var docs: ServiceStore

    constructor (docs: ServiceStore)
      ensures this.docs == docs
    {
      this.docs := docs;
    }

    /** `protected_data`. */
    method ProtectedData(req: DataRequest) returns (resp: DataResponse)
      modifies this
      ensures Outcome(resp, docs) == Handle(old(docs), req)
    {
      var appCode, service := AppCodeOf(req), ServiceOf(req);
      if !Truthy(req.action) || appCode == "" || service == "" {
        return DataFailure(MissingParameters);
      }
      var key := (JStr(appCode), service);
      if key !in docs {
        return DataFailure(ServiceNotFound);
      }
      var action := ActionOf(req.action);
      if action.IsList() {
        resp := ListResponse(docs[key], req, action, appCode, service);
      } else if action == GetUser {
        resp := GetUserResponse(docs[key], req);
      } else if action.IsWrite() {
        resp := WriteUser(key, req, action);
      } else {
        resp := DataFailure(UnknownAction);
      }
    }

    /** The write branch of `protected_data`: locate the user, edit a copy
        of it and store the new list. */
    method WriteUser(key: (Json, string), req: DataRequest, action: Action) returns (resp: DataResponse)
      requires key in docs && action.IsWrite()
      modifies this
      ensures Outcome(resp, docs) == WriteOutcome(old(docs), key, req, action)
    {
      var cf := CanonCf(Get(req.params, "cf"));
      if cf == "" {
        return DataFailure(CfMissing);
      }
      var doc := docs[key];
      var idx := LocateUser(doc.utenti, cf);
      if idx.None? {
        return DataFailure(UserNotFound);
      }
      var edited := EditUser(doc.utenti[idx.value], action, req.params);
      if edited.None? {
        return DataFailure(RoleMissing);
      }
      docs := docs[key := doc.(utenti := doc.utenti[idx.value := edited.value])];
      resp := WriteDone(action, cf);
    }
  }

  /** `next(u for u in raw_users if canon_cf(u.get("CF")) == cf)`, the scan
      that stops at the first user with the canonical CF. */
  method LocateUser(users: seq<Dict>, cf: string) returns (idx: Option<nat>)
    ensures idx == FindUser(users, cf)
  {
    var i := 0;
    while i < |users|
      invariant 0 <= i <= |users|
      invariant FirstFrom(users, HasCf(cf), i) == FindUser(users, cf)
    {
      if CanonCf(Get(users[i], "CF")) == cf {
        return Some(i);
      }
      i := i + 1;
    }
    idx := None;
  }

  /** The edit a write action makes to a copy of the located user. */
  method EditUser(user: Dict, action: Action, params: Dict) returns (edited: Option<Dict>)
    requires action.IsWrite()
    ensures edited == EditedUser(user, action, params)
  {
    var u := new UserEntry(user);
    if action == DisableUser {
      u.SetEnabledField(false);
    } else if action == EnableUser {
      u.SetEnabledField(true);
    } else {
      var code, desc := Get(params, "role_code"), Get(params, "role_desc");
      if !Truthy(desc) && code == JNull {
        return None;
      }
      u.UpsertRoleOnUser(code, desc, action == AssignRole);
    }
    edited := Some(u.fields);
  }
}
