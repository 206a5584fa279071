/**
  * The role hierarchy of pod memberships and the permission predicates
  * derived from it (src/utils/roleHelpers.js).
  *
  * A role reaches these functions as a JavaScript value: one of the role
  * strings, any other string, or null/undefined while the membership is not
  * loaded. It is modelled as `RoleValue`, an optional string.
  */
module RoleHelpers {
  import opened Wrappers

  /** The four roles, most privileged first. */
  datatype Role = Creator | Admin | Editor | ReadOnly {
    /** The string stored for this role (the `ROLES` table). */
    function Name(): string {
      match this
      case Creator => "creator"
      case Admin => "admin"
      case Editor => "editor"
      case ReadOnly => "read_only"
    }

    /** Position in the hierarchy: 0 is the most privileged. */
    function Rank(): nat {
      match this
      case Creator => 0
      case Admin => 1
      case Editor => 2
      case ReadOnly => 3
    }

    /** The human-readable label shown next to a member. */
    function Label(): string {
      match this
      case Creator => "Creator"
      case Admin => "Admin"
      case Editor => "Editor"
      case ReadOnly => "Read Only"
    }
  }

  /** A role as the UI holds it; `None` stands for null or undefined. */
  type RoleValue = Option<string>

  /** `ROLE_HIERARCHY`: the role strings ordered from most to least privileged. */
  const RoleHierarchy: seq<string> := [Creator.Name(), Admin.Name(), Editor.Name(), ReadOnly.Name()]

  /**
    * `Array.prototype.indexOf` with strict equality: the first position
    * holding `x`, or -1 when there is none.
    */
  function IndexOf(xs: seq<string>, x: string): (i: int)
    ensures -1 <= i < |xs|
    ensures i == -1 <==> x !in xs
    ensures 0 <= i ==> xs[i] == x && x !in xs[..i]
  {
    if |xs| == 0 then -1
    else if xs[0] == x then 0
    else
      var j := IndexOf(xs[1..], x);
      assert 0 <= j ==> xs[..j + 1] == [xs[0]] + xs[1..][..j];
      if j == -1 then -1 else j + 1
  }

  /** `ROLE_HIERARCHY.indexOf(role)`; null and undefined are never found. */
  function HierarchyIndex(role: RoleValue): int {
    match role
    case None => -1
    case Some(s) => IndexOf(RoleHierarchy, s)
  }

  /** The recognised role a value denotes, if any. */
  function ParseRole(role: RoleValue): (r: Option<Role>)
    ensures r.Some? ==> role == Some(r.value.Name())
    ensures r.None? ==> forall q: Role :: role != Some(q.Name())
  {
    match role
    case None => None
    case Some(s) =>
      if s == "creator" then Some(Creator)
      else if s == "admin" then Some(Admin)
      else if s == "editor" then Some(Editor)
      else if s == "read_only" then Some(ReadOnly)
      else None
  }

  /** `hasMinRole`: the user's role is at least as privileged as the minimum. */
  predicate HasMinRole(userRole: RoleValue, minRole: RoleValue) {
    var userIndex := HierarchyIndex(userRole);
    var minIndex := HierarchyIndex(minRole);
    if userIndex == -1 || minIndex == -1 then false
    else userIndex <= minIndex
  }

  /** `canEdit`: may create, edit and delete notes. */
  predicate CanEdit(role: RoleValue) {
    HasMinRole(role, Some(Editor.Name()))
  }

  /** `canManageMembers`: may invite, remove and re-role members. */
  predicate CanManageMembers(role: RoleValue) {
    HasMinRole(role, Some(Admin.Name()))
  }

  /** `isCreator`: strict equality with the creator string. */
  predicate IsCreator(role: RoleValue) {
    role == Some(Creator.Name())
  }

  /** The `labels` object of `getRoleLabel`, keyed by the four role strings. */
  const RoleLabels: map<string, string> :=
    map[Creator.Name() := Creator.Label(), Admin.Name() := Admin.Label(),
        Editor.Name() := Editor.Label(), ReadOnly.Name() := ReadOnly.Label()]

  /** `getRoleLabel`: the label of a known role; anything else is returned as it came. */
  function GetRoleLabel(role: RoleValue): (shown: RoleValue)
    ensures ParseRole(role).Some? ==> shown == Some(ParseRole(role).value.Label())
    ensures ParseRole(role).None? ==> shown == role
  {
    match role
    case None => None
    case Some(s) => if s in RoleLabels then Some(RoleLabels[s]) else role
  }

  /** The hierarchy lists each role at its rank. */
  lemma HierarchyIndexIsRank(r: Role)
    ensures HierarchyIndex(Some(r.Name())) == r.Rank()
  {
    assert RoleHierarchy[r.Rank()] == r.Name();
  }

  /** A value that is not one of the four roles has no place in the hierarchy. */
  lemma UnknownRoleHasNoIndex(role: RoleValue)
    requires ParseRole(role).None?
    ensures HierarchyIndex(role) == -1
  {
    if role.Some? {
      forall k | 0 <= k < |RoleHierarchy|
        ensures RoleHierarchy[k] != role.value
      {
        var q := [Creator, Admin, Editor, ReadOnly][k];
        assert RoleHierarchy[k] == q.Name();
      }
    }
  }

  /**
    * `hasMinRole` in full: true exactly when both values are recognised roles
    * and the user's rank is at most the minimum's rank.
    */
  lemma HasMinRoleCharacterised(userRole: RoleValue, minRole: RoleValue)
    ensures HasMinRole(userRole, minRole) <==>
      ParseRole(userRole).Some? && ParseRole(minRole).Some? &&
      ParseRole(userRole).value.Rank() <= ParseRole(minRole).value.Rank()
  {
    if ParseRole(userRole).None? {
      UnknownRoleHasNoIndex(userRole);
    } else {
      HierarchyIndexIsRank(ParseRole(userRole).value);
    }
    if ParseRole(minRole).None? {
      UnknownRoleHasNoIndex(minRole);
    } else {
      HierarchyIndexIsRank(ParseRole(minRole).value);
    }
  }

  /** Fail closed: an unrecognised value on either side grants nothing. */
  lemma HasMinRoleFailsClosed(userRole: RoleValue, minRole: RoleValue)
    requires ParseRole(userRole).None? || ParseRole(minRole).None?
    ensures !HasMinRole(userRole, minRole)
  {
    HasMinRoleCharacterised(userRole, minRole);
  }

  /** On recognised roles `hasMinRole` compares hierarchy positions. */
  lemma HasMinRoleByRank(u: Role, m: Role)
    ensures HasMinRole(Some(u.Name()), Some(m.Name())) <==> u.Rank() <= m.Rank()
  {
    HierarchyIndexIsRank(u);
    HierarchyIndexIsRank(m);
  }

  /** Reflexivity, which holds for exactly the recognised roles. */
  lemma HasMinRoleReflexive(role: RoleValue)
    ensures HasMinRole(role, role) <==> ParseRole(role).Some?
  {
    HasMinRoleCharacterised(role, role);
  }

  /** Transitivity. */
  lemma HasMinRoleTransitive(a: RoleValue, b: RoleValue, c: RoleValue)
    requires HasMinRole(a, b) && HasMinRole(b, c)
    ensures HasMinRole(a, c)
  {
    HasMinRoleCharacterised(a, b);
    HasMinRoleCharacterised(b, c);
    HasMinRoleCharacterised(a, c);
  }

  /**
    * Totality on recognised roles: at least one direction holds, and both
    * hold only when the two roles are the same.
    */
  lemma HasMinRoleTotal(a: RoleValue, b: RoleValue)
    requires ParseRole(a).Some? && ParseRole(b).Some?
    ensures HasMinRole(a, b) || HasMinRole(b, a)
    ensures HasMinRole(a, b) && HasMinRole(b, a) <==> a == b
  {
    HasMinRoleCharacterised(a, b);
    HasMinRoleCharacterised(b, a);
  }

  /** `canEdit` holds for creator, admin and editor and for nothing else. */
  lemma CanEditExactly(role: RoleValue)
    ensures CanEdit(role) <==>
      role == Some("creator") || role == Some("admin") || role == Some("editor")
  {
    HasMinRoleCharacterised(role, Some(Editor.Name()));
  }

  /** `canManageMembers` holds for creator and admin and for nothing else. */
  lemma CanManageMembersExactly(role: RoleValue)
    ensures CanManageMembers(role) <==> role == Some("creator") || role == Some("admin")
  {
    HasMinRoleCharacterised(role, Some(Admin.Name()));
  }

  /** `isCreator` recognises exactly the creator role. */
  lemma IsCreatorExactly(role: RoleValue)
    ensures IsCreator(role) <==> ParseRole(role) == Some(Creator)
  {
  }

  /** The permissions are nested: creator implies manager implies editor. */
  lemma PermissionsMonotone(role: RoleValue)
    ensures CanManageMembers(role) ==> CanEdit(role)
    ensures IsCreator(role) ==> CanManageMembers(role)
  {
    CanEditExactly(role);
    CanManageMembersExactly(role);
  }

  /** The four labels, and the identity fallback for every other value. */
  lemma RoleLabelsAsShown(role: RoleValue)
    ensures GetRoleLabel(Some("creator")) == Some("Creator")
    ensures GetRoleLabel(Some("admin")) == Some("Admin")
    ensures GetRoleLabel(Some("editor")) == Some("Editor")
    ensures GetRoleLabel(Some("read_only")) == Some("Read Only")
    ensures role !in {Some("creator"), Some("admin"), Some("editor"), Some("read_only")} ==>
      GetRoleLabel(role) == role
  {
  }
}
