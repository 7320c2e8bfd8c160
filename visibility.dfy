/** Visibility rules of the data plane (`resource_server.py`): the canonical
    fiscal code, the enablement flag and its synonyms, the priority rule that
    gives a user's effective roles, and the projection of a visible user. */
module Visibility {
  import opened Text
  import opened Values

  /** A `serviceRole` document, found by (appCode, codServizio). Its users
      and its document-level roles are lists of dicts; an absent or falsy
      `ruoli` is the empty list, as `doc.get("ruoli") or []` reads it. */
  datatype Enrollment = Enrollment(descrizioneApp: Json, utenti: seq<Dict>, ruoli: seq<Dict>)

  /** The field names under which a user's enablement flag is recognised, in
      the order they are tried. */
  const EnabledKeys: seq<string> := ["abilitato", "enabled", "attivo", "active", "isEnabled"]

  /** The text of a canonical fiscal code: stripped of surrounding
      whitespace and upper-cased. */
  function CanonText(s: string): string {
    Upper(Strip(s))
  }

  /** Canonical text has no white space at either end and no lower-case
      letter. */
  lemma CanonTextShape(s: string)
    ensures var c := CanonText(s);
      && (c == [] || (!IsSpace(c[0]) && !IsSpace(c[|c| - 1])))
      && forall i :: 0 <= i < |c| ==> !('a' <= c[i] <= 'z')
  {
    var t := Strip(s);
    assert forall i :: 0 <= i < |t| ==> UpperChar(t[i]) == Upper(t)[i];
  }

  /** `canon_cf`: `str(s)` (None read as ""), stripped and upper-cased. */
  function CanonCf(j: Json): (r: string)
    ensures j == JNull ==> r == ""
  {
    CanonText(if j == JNull then "" else Str(j))
  }

  /** Canonicalising canonical text changes nothing. */
  lemma CanonTextIdempotent(s: string)
    ensures CanonText(CanonText(s)) == CanonText(s)
  {
    var c := CanonText(s);
    CanonTextShape(s);
    StripOfStripped(c);
    UpperOfUpper(c);
  }

  /** Canonicalising a canonical fiscal code changes nothing. */
  lemma CanonCfIdempotent(j: Json)
    ensures CanonCf(JStr(CanonCf(j))) == CanonCf(j)
  {
    CanonTextIdempotent(if j == JNull then "" else Str(j));
  }

  /** `is_enabled`: some synonym of the flag holds a truthy value. */
  predicate IsEnabled(u: Dict) {
    exists i | 0 <= i < |EnabledKeys| :: Truthy(Get(u, EnabledKeys[i]))
  }

  /** `r.get("desc") or r.get("label") or r.get("name")`. */
  function RoleDesc(r: Dict): Json {
    Or(Or(Get(r, "desc"), Get(r, "label")), Get(r, "name"))
  }

  /** `r.get("isChecked", True) or r.get("checked", False) or r.get("enabled", False)`,
      read as a truth value: a role without `isChecked` counts as checked. */
  predicate RoleChecked(r: Dict) {
    Truthy(GetOr(r, "isChecked", JBool(true))) || Truthy(GetOr(r, "checked", JBool(false)))
    || Truthy(GetOr(r, "enabled", JBool(false)))
  }

  /** What one role dict contributes: its description, when that is truthy
      and the role is checked. */
  function DictRole(r: Dict): seq<Json> {
    if Truthy(RoleDesc(r)) && RoleChecked(r) then [RoleDesc(r)] else []
  }

  /** What one element of a user's own `ruoli` list contributes: a dict as
      `DictRole`, anything else as its `str()`. */
  function ListRole(r: Json): seq<Json> {
    if r.JObj? then DictRole(r.fields) else [JStr(Str(r))]
  }

  /** `doc_roles(doc)`: the contributions of the document's role dicts, in order. */
  function DocRoles(doc: Enrollment): seq<Json> {
    FlatMap(doc.ruoli, DictRole)
  }

  /** `user_roles_from_user_array(u)`: the contributions of the elements of
      `u["ruoli"]`, in order; none unless that is a list. */
  function UserRoles(u: Dict): seq<Json> {
    match Get(u, "ruoli")
    case JArr(xs) => FlatMap(xs, ListRole)
    case _ => []
  }

  /** `doc_roles`, the loop that appends each checked, described role. */
  method CollectDocRoles(doc: Enrollment) returns (roles: seq<Json>)
    ensures roles == DocRoles(doc)
  {
    roles := [];
    var i := 0;
    while i < |doc.ruoli|
      invariant 0 <= i <= |doc.ruoli|
      invariant roles == FlatMap(doc.ruoli[..i], DictRole)
    {
      var r := doc.ruoli[i];
      var desc := Or(Or(Get(r, "desc"), Get(r, "label")), Get(r, "name"));
      var checked := Truthy(GetOr(r, "isChecked", JBool(true))) || Truthy(GetOr(r, "checked", JBool(false)))
                     || Truthy(GetOr(r, "enabled", JBool(false)));
      if Truthy(desc) && checked {
        roles := roles + [desc];
      }
      assert doc.ruoli[..i + 1][..i] == doc.ruoli[..i];
      i := i + 1;
    }
    assert doc.ruoli[..i] == doc.ruoli;
  }

  /** `user_roles_from_user_array`, the loop over the user's own `ruoli`. */
  method CollectUserRoles(u: Dict) returns (roles: seq<Json>)
    ensures roles == UserRoles(u)
  {
    roles := [];
    var arr := Get(u, "ruoli");
    if arr.JArr? {
      var xs := arr.items;
      var i := 0;
      while i < |xs|
        invariant 0 <= i <= |xs|
        invariant roles == FlatMap(xs[..i], ListRole)
      {
        var r := xs[i];
        if r.JObj? {
          var desc := Or(Or(Get(r.fields, "desc"), Get(r.fields, "label")), Get(r.fields, "name"));
          var checked := Truthy(GetOr(r.fields, "isChecked", JBool(true)))
                         || Truthy(GetOr(r.fields, "checked", JBool(false)))
                         || Truthy(GetOr(r.fields, "enabled", JBool(false)));
          if Truthy(desc) && checked {
            roles := roles + [desc];
          }
        } else {
          roles := roles + [JStr(Str(r))];
        }
        assert xs[..i + 1][..i] == xs[..i];
        i := i + 1;
      }
      assert xs[..i] == xs;
    }
  }

  /** `resolve_effective_roles`: the user's own roles when there are any,
      otherwise the document-level roles. The middle branch, taken when the
      user's `ruolo` flag is truthy, yields the same list as the fallback, so
      the flag has no effect on the result. */
  function ResolveEffectiveRoles(u: Dict, doc: Enrollment): (r: seq<Json>)
    ensures r == if UserRoles(u) != [] then UserRoles(u) else DocRoles(doc)
  {
    var ur := UserRoles(u);
    if ur != [] then ur
    else if Truthy(Get(u, "ruolo")) && DocRoles(doc) != [] then DocRoles(doc)
    else DocRoles(doc)
  }

  /** The record a visible user is projected to. */
  datatype Projection = Projection(nome: Json, cognome: Json, cf: Json, ruoli: seq<Json>)

  /** `project_visible`: a record exactly for an enabled user with at least
      one effective role, carrying those roles and the user's name fields. */
  function ProjectVisible(u: Dict, doc: Enrollment): (r: Option<Projection>)
    ensures r.Some? <==> IsEnabled(u) && ResolveEffectiveRoles(u, doc) != []
    ensures r.Some? ==>
      && r.value.ruoli == ResolveEffectiveRoles(u, doc) && |r.value.ruoli| > 0
      && r.value.nome == Get(u, "nome") && r.value.cognome == Get(u, "cognome")
      && r.value.cf == Get(u, "CF")
  {
    if !IsEnabled(u) then None
    else
      var roles := ResolveEffectiveRoles(u, doc);
      if roles == [] then None
      else Some(Projection(Get(u, "nome"), Get(u, "cognome"), Get(u, "CF"), roles))
  }
}
