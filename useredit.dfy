/** The two in-place edits the data plane applies to one user record of a
    `serviceRole` document (`resource_server.py`): the schema-tolerant
    enablement flag writer `set_enabled_field` and the role upsert
    `upsert_role_on_user` on the user's own `ruoli` list. Each is a method of
    `UserEntry`, the mutable dict, proved equal to a function of the dict it
    started from; the properties the data plane relies on are lemmas about
    those functions. */
module UserEdit {
  import opened Values
  import opened Visibility

  // ------------------------------------------------------- enablement flag

  /** The position of the first flag synonym at or after `i` that is a key of
      `u`, or `|EnabledKeys|` when there is none. */
  function FlagIndex(u: Dict, i: nat): (r: nat)
    requires i <= |EnabledKeys|
    ensures i <= r <= |EnabledKeys|
    ensures r < |EnabledKeys| ==> EnabledKeys[r] in u
    ensures forall j :: i <= j < r ==> EnabledKeys[j] !in u
    decreases |EnabledKeys| - i
  {
    if i == |EnabledKeys| || EnabledKeys[i] in u then i else FlagIndex(u, i + 1)
  }

  /** The key `set_enabled_field` writes: the first synonym present in the
      record, or "abilitato" when none is. */
  function FlagKey(u: Dict): (k: string)
    ensures k in EnabledKeys
    ensures k !in u ==> k == "abilitato" && forall j :: 0 <= j < |EnabledKeys| ==> EnabledKeys[j] !in u
  {
    var i := FlagIndex(u, 0);
    if i < |EnabledKeys| then EnabledKeys[i] else "abilitato"
  }

  /** The record after `set_enabled_field(u, enabled)`: the flag key holds the
      boolean and every other key keeps its value. */
  function SetEnabled(u: Dict, enabled: bool): (r: Dict)
    ensures r.Keys == u.Keys + {FlagKey(u)}
    ensures r[FlagKey(u)] == JBool(enabled)
    ensures forall k :: k in u && k != FlagKey(u) ==> r[k] == u[k]
  {
    u[FlagKey(u) := JBool(enabled)]
  }

  /** Only one synonym is ever written, and it is the first one present: a
      synonym that comes earlier in the list is absent from the record. */
  lemma SetEnabledWritesFirstPresent(u: Dict, enabled: bool, j: nat)
    requires j < |EnabledKeys| && EnabledKeys[j] in u
    ensures FlagKey(u) in u
    ensures forall m :: 0 <= m < |EnabledKeys| && EnabledKeys[m] == FlagKey(u) ==> m <= j
  {
    var i := FlagIndex(u, 0);
    assert i <= j;
    forall m | 0 <= m < |EnabledKeys| && EnabledKeys[m] == FlagKey(u)
      ensures m <= j
    {
      assert EnabledKeys[m] == EnabledKeys[i];
    }
  }

  /** Enabling always makes the user enabled. */
  lemma EnableMakesEnabled(u: Dict)
    ensures IsEnabled(SetEnabled(u, true))
  {
    var r := SetEnabled(u, true);
    var k := FlagKey(u);
    var j :| 0 <= j < |EnabledKeys| && EnabledKeys[j] == k;
    assert Truthy(Get(r, EnabledKeys[j]));
  }

  /** Disabling writes false under one key only: the user stays enabled
      exactly when some other synonym holds a truthy value. */
  lemma DisableLeavesOtherSynonyms(u: Dict)
    ensures IsEnabled(SetEnabled(u, false)) <==>
      exists j | 0 <= j < |EnabledKeys| :: EnabledKeys[j] != FlagKey(u) && Truthy(Get(u, EnabledKeys[j]))
  {
    var r := SetEnabled(u, false);
    var k := FlagKey(u);
    if IsEnabled(r) {
      var j :| 0 <= j < |EnabledKeys| && Truthy(Get(r, EnabledKeys[j]));
      assert EnabledKeys[j] != k;
      assert Get(r, EnabledKeys[j]) == Get(u, EnabledKeys[j]);
    }
    if exists j | 0 <= j < |EnabledKeys| :: EnabledKeys[j] != k && Truthy(Get(u, EnabledKeys[j])) {
      var j :| 0 <= j < |EnabledKeys| && EnabledKeys[j] != k && Truthy(Get(u, EnabledKeys[j]));
      assert Get(r, EnabledKeys[j]) == Get(u, EnabledKeys[j]);
    }
  }

  /** A record whose "abilitato" is false but whose "enabled" is true is still
      enabled after `disable_user`. */
  lemma DisableCanLeaveUserEnabled()
    ensures var u := map["abilitato" := JBool(false), "enabled" := JBool(true)];
      FlagKey(u) == "abilitato" && IsEnabled(SetEnabled(u, false))
  {
    var u := map["abilitato" := JBool(false), "enabled" := JBool(true)];
    assert FlagIndex(u, 0) == 0;
    assert Truthy(Get(SetEnabled(u, false), EnabledKeys[1]));
  }

  // ------------------------------------------------------------ role upsert

  /** The user's own role list: `u["ruoli"]` when it is a list, else empty
      (the upsert replaces an absent or non-list value by `[]`). */
  function RoleList(u: Dict): seq<Json> {
    if "ruoli" in u && u["ruoli"].JArr? then u["ruoli"].items else []
  }

  /** Whether element `r` of the role list is the one the upsert targets: a
      dict whose "cod" equals a given code, or whose "desc" or "label" equals
      a truthy description; a string equal to a truthy description. */
  predicate RoleMatches(r: Json, code: Json, desc: Json) {
    match r
    case JObj(m) =>
      (code != JNull && PyEq(Get(m, "cod"), code))
      || (Truthy(desc) && (PyEq(Get(m, "desc"), desc) || PyEq(Get(m, "label"), desc)))
    case JStr(_) => Truthy(desc) && PyEq(r, desc)
    case _ => false
  }

  /** `RoleMatches` for a fixed code and description, as a test on elements. */
  function Targets(code: Json, desc: Json): Json -> bool {
    r => RoleMatches(r, code, desc)
  }

  /** The index of the first element of `rs` the upsert targets. */
  function FirstMatch(rs: seq<Json>, code: Json, desc: Json): (r: Option<nat>)
    ensures r.Some? ==> r.value < |rs| && RoleMatches(rs[r.value], code, desc)
  {
    FirstIndex(rs, Targets(code, desc))
  }

  /** The upsert targets the first matching element, and appends exactly
      when no element matches. */
  lemma FirstMatchFirst(rs: seq<Json>, code: Json, desc: Json)
    ensures FirstMatch(rs, code, desc).Some? ==>
      forall j :: 0 <= j < FirstMatch(rs, code, desc).value ==> !RoleMatches(rs[j], code, desc)
    ensures FirstMatch(rs, code, desc).None? ==> forall j :: 0 <= j < |rs| ==> !RoleMatches(rs[j], code, desc)
  {
    FirstIndexFirst(rs, Targets(code, desc));
  }

  /** The entry appended when no element matches. */
  function NewRole(code: Json, desc: Json, checked: bool): Dict {
    map["cod" := code, "desc" := desc, "isChecked" := JBool(checked)]
  }

  /** The matched element after the merge: a string element first becomes
      `{"desc": r}`; an existing "cod" is kept, an existing truthy "desc" is
      kept, and "isChecked" becomes `checked`. */
  function MergedRole(r: Json, code: Json, desc: Json, checked: bool): (m: Dict)
    ensures "cod" in m && "desc" in m && "isChecked" in m
    ensures m["isChecked"] == JBool(checked)
    ensures r.JObj? && "cod" in r.fields ==> m["cod"] == r.fields["cod"]
    ensures r.JObj? && "cod" !in r.fields ==> m["cod"] == code
    ensures r.JObj? ==> m["desc"] == Or(Get(r.fields, "desc"), desc)
    ensures r.JObj? ==> forall k :: k in r.fields && k !in {"cod", "desc", "isChecked"} ==> k in m && m[k] == r.fields[k]
    ensures !r.JObj? ==> m == NewRole(code, Or(r, desc), checked)
  {
    var existing := if r.JObj? then r.fields else map["desc" := r];
    existing["cod" := GetOr(existing, "cod", code)]["desc" := Or(Get(existing, "desc"), desc)]
      ["isChecked" := JBool(checked)]
  }

  /** The record after `upsert_role_on_user(u, code, desc, checked)`. */
  function UpsertRole(u: Dict, code: Json, desc: Json, checked: bool): (r: Dict)
    ensures r.Keys == u.Keys + {"ruoli"}
    ensures forall k :: k in u && k != "ruoli" ==> r[k] == u[k]
    ensures r["ruoli"].JArr? && RoleList(r) == r["ruoli"].items
    ensures FirstMatch(RoleList(u), code, desc).None? ==>
      RoleList(r) == RoleList(u) + [JObj(NewRole(code, desc, checked))]
    ensures FirstMatch(RoleList(u), code, desc).Some? ==>
      var i := FirstMatch(RoleList(u), code, desc).value;
      && |RoleList(r)| == |RoleList(u)|
      && RoleList(r)[i] == JObj(MergedRole(RoleList(u)[i], code, desc, checked))
      && forall j :: 0 <= j < |RoleList(u)| && j != i ==> RoleList(r)[j] == RoleList(u)[j]
  {
    var rs := RoleList(u);
    var updated := match FirstMatch(rs, code, desc)
      case None => rs + [JObj(NewRole(code, desc, checked))]
      case Some(i) => rs[i := JObj(MergedRole(rs[i], code, desc, checked))];
    u["ruoli" := JArr(updated)]
  }

  /** The entry `assign_role` or `remove_role` leaves at the targeted place. */
  function WrittenRole(u: Dict, code: Json, desc: Json, checked: bool): Dict {
    var rs := RoleList(u);
    match FirstMatch(rs, code, desc)
    case None => NewRole(code, desc, checked)
    case Some(i) => MergedRole(rs[i], code, desc, checked)
  }

  /** The written entry is an element of the new role list. */
  lemma WrittenRoleIsListed(u: Dict, code: Json, desc: Json, checked: bool)
    ensures exists i :: (0 <= i < |RoleList(UpsertRole(u, code, desc, checked))|
      && RoleList(UpsertRole(u, code, desc, checked))[i] == JObj(WrittenRole(u, code, desc, checked)))
  {
    var rs, r := RoleList(u), RoleList(UpsertRole(u, code, desc, checked));
    match FirstMatch(rs, code, desc)
    case None =>
      assert r[|rs|] == JObj(WrittenRole(u, code, desc, checked));
    case Some(i) =>
      assert r[i] == JObj(WrittenRole(u, code, desc, checked));
  }

  /** The upsert touches `ruoli` only, so it keeps the enablement of the
      user whichever way it was. */
  lemma UpsertKeepsEnabled(u: Dict, code: Json, desc: Json, checked: bool)
    ensures IsEnabled(UpsertRole(u, code, desc, checked)) == IsEnabled(u)
  {
    var w := UpsertRole(u, code, desc, checked);
    assert forall j :: 0 <= j < |EnabledKeys| ==> Get(w, EnabledKeys[j]) == Get(u, EnabledKeys[j]);
  }

  /** A role dict whose "desc" is truthy and whose "isChecked" is true
      contributes its description. */
  lemma CheckedRoleContributes(m: Dict)
    requires "desc" in m && Truthy(m["desc"]) && "isChecked" in m && m["isChecked"] == JBool(true)
    ensures Truthy(RoleDesc(m)) && RoleChecked(m) && ListRole(JObj(m)) == [RoleDesc(m)]
  {
  }

  /** With a truthy description and `checked` set, the written entry is a
      checked role with a truthy description, so it contributes one role. */
  lemma AssignedRoleContributes(u: Dict, code: Json, desc: Json)
    requires Truthy(desc)
    ensures var w := WrittenRole(u, code, desc, true);
      && Truthy(RoleDesc(w)) && RoleChecked(w) && ListRole(JObj(w)) == [RoleDesc(w)]
  {
    CheckedRoleContributes(WrittenRole(u, code, desc, true));
  }

  /** A listed role dict that is checked and described contributes its
      description to the user's roles. */
  lemma ListedRoleCounts(r: Dict, w: Dict, i: nat)
    requires i < |RoleList(r)| && RoleList(r)[i] == JObj(w) && "ruoli" in r
    requires Truthy(RoleDesc(w)) && RoleChecked(w)
    ensures RoleDesc(w) in UserRoles(r)
  {
    var rs := RoleList(r);
    assert RoleDesc(w) in ListRole(rs[i]);
    FlatMapMembers(rs, ListRole, RoleDesc(w));
  }

  /** After `assign_role` with a truthy description the user has an own role:
      the written entry is checked and carries a truthy description. */
  lemma AssignGivesOwnRole(u: Dict, code: Json, desc: Json)
    requires Truthy(desc)
    ensures var w := WrittenRole(u, code, desc, true);
      && Truthy(RoleDesc(w)) && RoleDesc(w) in UserRoles(UpsertRole(u, code, desc, true))
  {
    var r := UpsertRole(u, code, desc, true);
    var w := WrittenRole(u, code, desc, true);
    AssignedRoleContributes(u, code, desc);
    WrittenRoleIsListed(u, code, desc, true);
    var i :| 0 <= i < |RoleList(r)| && RoleList(r)[i] == JObj(w);
    ListedRoleCounts(r, w, i);
  }

  /** After `remove_role` the written entry still yields a role exactly when
      its own "checked" or "enabled" is truthy and it has a description:
      "isChecked" false alone does not hide a role that says otherwise. */
  lemma RemoveUnchecks(u: Dict, code: Json, desc: Json)
    ensures var w := WrittenRole(u, code, desc, false);
      && w["isChecked"] == JBool(false)
      && (DictRole(w) != [] <==>
           Truthy(RoleDesc(w)) && (Truthy(GetOr(w, "checked", JBool(false))) || Truthy(GetOr(w, "enabled", JBool(false)))))
  {
  }

  /** The scan of `upsert_role_on_user` for the element to update: the loop
      that stops at the first element the upsert targets. */
  method FindTargetRole(rs: seq<Json>, code: Json, desc: Json) returns (idx: Option<nat>)
    ensures idx == FirstMatch(rs, code, desc)
  {
    var i := 0;
    while i < |rs|
      invariant 0 <= i <= |rs|
      invariant FirstFrom(rs, Targets(code, desc), i) == FirstMatch(rs, code, desc)
    {
      if RoleMatches(rs[i], code, desc) {
        return Some(i);
      }
      i := i + 1;
    }
    return None;
  }

  // ------------------------------------------------------------ the record

  /** One element of a document's `utenti` list, edited in place. */
  class UserEntry {
    var fields: Dict

    constructor (fields: Dict)
      ensures this.fields == fields
    {
      this.fields := fields;
    }

    /** `set_enabled_field`: the loop that writes the first synonym present
        and returns, or creates "abilitato". */
    method SetEnabledField(enabled: bool)
      modifies this
      ensures fields == SetEnabled(old(fields), enabled)
    {
      var i := 0;
      while i < |EnabledKeys|
        invariant 0 <= i <= |EnabledKeys|
        invariant fields == old(fields)
        invariant forall j :: 0 <= j < i ==> EnabledKeys[j] !in fields
      {
        var key := EnabledKeys[i];
        if key in fields {
          assert FlagIndex(fields, 0) == i;
          fields := fields[key := JBool(enabled)];
          return;
        }
        i := i + 1;
      }
      fields := fields["abilitato" := JBool(enabled)];
    }

    /** `upsert_role_on_user`: normalise `ruoli` to a list, scan for the first
        matching element, then append a new entry or merge into that one. */
    method UpsertRoleOnUser(code: Json, desc: Json, checked: bool)
      modifies this
      ensures fields == UpsertRole(old(fields), code, desc, checked)
    {
      ghost var u0 := fields;
      if "ruoli" !in fields || !fields["ruoli"].JArr? {
        fields := fields["ruoli" := JArr([])];
      }
      var rs := fields["ruoli"].items;
      assert rs == RoleList(u0);
      var idx := FindTargetRole(rs, code, desc);
      var updated;
      if idx.None? {
        updated := rs + [JObj(NewRole(code, desc, checked))];
      } else {
        updated := rs[idx.value := JObj(MergedRole(rs[idx.value], code, desc, checked))];
      }
      assert UpsertRole(u0, code, desc, checked) == u0["ruoli" := JArr(updated)];
      fields := fields["ruoli" := JArr(updated)];
    }
  }
}
