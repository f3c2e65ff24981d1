/** The roles assigned to one user, and the access they give. */
module AccessControls {

  import opened Wrappers
  import opened Roles
  import opened Resources

  /** Roles in the order they were assigned; duplicates are kept. */
  datatype AccessControl = AccessControl(userRoles: seq<Role>)

  /** `AccessControl::new`: no roles at all. */
  function New(): (ac: AccessControl)
    ensures |ac.userRoles| == 0
  {
    AccessControl([])
  }

  /** `AccessControl::add_role`: push onto the end of the role list. */
  function AddRole(ac: AccessControl, role: Role): (ac': AccessControl)
    ensures |ac'.userRoles| == |ac.userRoles| + 1
    ensures ac'.userRoles[..|ac.userRoles|] == ac.userRoles
    ensures ac'.userRoles[|ac.userRoles|] == role
  {
    AccessControl(ac.userRoles + [role])
  }

  /** The loop of `has_access`: the first role whose name the resource allows ends the scan. */
  function AnyRoleAllowed(roles: seq<Role>, res: Resource): (b: bool)
    ensures b <==> exists r :: r in roles && r.name in res.allowedRoles
  {
    if |roles| == 0 then false
    else if IsAccessAllowed(res, roles[0].name) then true
    else AnyRoleAllowed(roles[1..], res)
  }

  /** `AccessControl::has_access`: some assigned role's name is on the resource's allow-list. */
  function HasAccess(ac: AccessControl, res: Resource): (b: bool)
    ensures b <==> exists r :: r in ac.userRoles && r.name in res.allowedRoles
  {
    AnyRoleAllowed(ac.userRoles, res)
  }

  /** The `any` of `has_role`, in order. */
  function AnyRoleNamed(roles: seq<Role>, roleName: string): (b: bool)
    ensures b <==> exists r :: r in roles && r.name == roleName
  {
    if |roles| == 0 then false
    else roles[0].name == roleName || AnyRoleNamed(roles[1..], roleName)
  }

  /** `AccessControl::has_role`: some assigned role carries this name. */
  function HasRole(ac: AccessControl, roleName: string): (b: bool)
    ensures b <==> exists r :: r in ac.userRoles && r.name == roleName
  {
    AnyRoleNamed(ac.userRoles, roleName)
  }

  /** The names of a role list, position by position. */
  function Names(roles: seq<Role>): (ns: seq<string>)
    ensures |ns| == |roles|
    ensures forall i :: 0 <= i < |roles| ==> ns[i] == roles[i].name
  {
    seq(|roles|, i requires 0 <= i < |roles| => roles[i].name)
  }

  lemma NewGrantsNothing(res: Resource, roleName: string)
    ensures !HasAccess(New(), res)
    ensures !HasRole(New(), roleName)
  {
  }

  /** After `add_role(r)` the user holds a role named `r.name`. */
  lemma AddRoleGivesRole(ac: AccessControl, role: Role)
    ensures HasRole(AddRole(ac, role), role.name)
  {
  }

  /** `add_role` grants exactly what the new role's name is allowed, on top of the old grants. */
  lemma AddRoleAccess(ac: AccessControl, role: Role, res: Resource)
    ensures HasAccess(AddRole(ac, role), res) <==> HasAccess(ac, res) || IsAccessAllowed(res, role.name)
  {
  }

  /** `add_role` never takes a role or an access away. */
  lemma AddRoleMonotone(ac: AccessControl, role: Role, res: Resource, roleName: string)
    ensures HasAccess(ac, res) ==> HasAccess(AddRole(ac, role), res)
    ensures HasRole(ac, roleName) ==> HasRole(AddRole(ac, role), roleName)
  {
  }

  /** `has_access` reads only the set of role names: order, duplicates and parents do not matter. */
  lemma HasAccessByNames(ac: AccessControl, res: Resource)
    ensures HasAccess(ac, res) <==> exists n :: n in Names(ac.userRoles) && n in res.allowedRoles
  {
  }

  /** Two role lists with the same names give the same access to every resource. */
  lemma HasAccessOrderAndParentIndependent(a: AccessControl, b: AccessControl, res: Resource)
    requires forall n :: n in Names(a.userRoles) <==> n in Names(b.userRoles)
    ensures HasAccess(a, res) == HasAccess(b, res)
  {
    HasAccessByNames(a, res);
    HasAccessByNames(b, res);
  }

  /** No hierarchy expansion: a role above `admin` still needs its own name on the list. */
  lemma NoHierarchyExpansion()
    ensures var admin := Role("admin", None);
            var superAdmin := Role("super_admin", Some(admin));
            var file := Resource("secure_file", ["admin"]);
            IsHigherOrEqual(superAdmin, admin) && !HasAccess(AccessControl([superAdmin]), file)
  {
  }
}
