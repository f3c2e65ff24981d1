/** Resources with an allow-list of role names, and groups of resources. */
module Resources {

  /** `Resource::new` is the constructor. */
  datatype Resource = Resource(name: string, allowedRoles: seq<string>)

  /** `ResourceGroup::new` is the constructor. */
  datatype ResourceGroup = ResourceGroup(groupName: string, resources: seq<Resource>)

  /** `Vec::contains`: a front-to-back scan for an equal element. */
  function Contains(xs: seq<string>, x: string): (b: bool)
    ensures b <==> x in xs
  {
    if |xs| == 0 then false
    else xs[0] == x || Contains(xs[1..], x)
  }

  /** `Resource::is_access_allowed`: the literal role name is on the allow-list. */
  function IsAccessAllowed(res: Resource, role: string): (b: bool)
    ensures b <==> role in res.allowedRoles
  {
    Contains(res.allowedRoles, role)
  }

  /** The `any` over the members of a group, in order. */
  function AnyAllows(resources: seq<Resource>, role: string): (b: bool)
    ensures b <==> exists r :: r in resources && IsAccessAllowed(r, role)
  {
    if |resources| == 0 then false
    else IsAccessAllowed(resources[0], role) || AnyAllows(resources[1..], role)
  }

  /** The member-wise form of `AnyAllows`, restated by position in the group. */
  lemma AnyAllowsByIndex(resources: seq<Resource>, role: string)
    ensures AnyAllows(resources, role) <==> exists i :: 0 <= i < |resources| && role in resources[i].allowedRoles
  {
    if AnyAllows(resources, role) {
      var r :| r in resources && IsAccessAllowed(r, role);
      var i :| 0 <= i < |resources| && resources[i] == r;
    }
    if i :| 0 <= i < |resources| && role in resources[i].allowedRoles {
      assert IsAccessAllowed(resources[i], role);
    }
  }

  /** `ResourceGroup::is_access_allowed`: some member resource allows the role. */
  function GroupIsAccessAllowed(g: ResourceGroup, role: string): (b: bool)
    ensures b <==> exists i :: 0 <= i < |g.resources| && role in g.resources[i].allowedRoles
  {
    AnyAllowsByIndex(g.resources, role);
    AnyAllows(g.resources, role)
  }

  lemma EmptyAllowListDenies(res: Resource, role: string)
    requires |res.allowedRoles| == 0
    ensures !IsAccessAllowed(res, role)
  {
  }

  lemma EmptyGroupDenies(g: ResourceGroup, role: string)
    requires |g.resources| == 0
    ensures !GroupIsAccessAllowed(g, role)
  {
  }

  /** Appending a resource to a group adds exactly that resource's grants. */
  lemma GroupAppend(g: ResourceGroup, extra: Resource, role: string)
    ensures GroupIsAccessAllowed(ResourceGroup(g.groupName, g.resources + [extra]), role)
            <==> GroupIsAccessAllowed(g, role) || IsAccessAllowed(extra, role)
  {
  }

  /** Appending never turns an allowed role into a denied one. */
  lemma GroupAppendMonotone(g: ResourceGroup, extra: Resource, role: string)
    requires GroupIsAccessAllowed(g, role)
    ensures GroupIsAccessAllowed(ResourceGroup(g.groupName, g.resources + [extra]), role)
  {
  }

  /** A one-element allow-list `["admin"]` admits `admin` and refuses `guest`. */
  lemma AdminOnlyResource(name: string)
    ensures IsAccessAllowed(Resource(name, ["admin"]), "admin")
    ensures !IsAccessAllowed(Resource(name, ["admin"]), "guest")
  {
  }
}
