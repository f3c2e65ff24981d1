/** Roles with an owned parent chain, and time-bounded role delegations. */
module Roles {

  import opened Wrappers
  import opened MachineInts

  /** A role owns its optional parent outright, so a chain is finite and acyclic by construction. */
  datatype Role = Role(name: string, parentRole: Option<Role>)

  /** The names met walking up from `r` to the root, `r` itself first. */
  function Chain(r: Role): (c: seq<string>)
    ensures |c| >= 1 && c[0] == r.name
  {
    match r.parentRole
    case None => [r.name]
    case Some(p) => [r.name] + Chain(p)
  }

  /** `Role::is_higher_or_equal`: compare names, else ask the parent, else refuse. */
  function IsHigherOrEqual(self: Role, other: Role): (b: bool)
    ensures b <==> other.name in Chain(self)
  {
    if self.name == other.name then true
    else match self.parentRole
      case Some(p) => IsHigherOrEqual(p, other)
      case None => false
  }

  /** `a` is `r` itself or one of the roles `r`'s parent chain owns. */
  ghost predicate IsAncestor(a: Role, r: Role)
  {
    a == r || (r.parentRole.Some? && IsAncestor(a, r.parentRole.value))
  }

  lemma Reflexive(r: Role)
    ensures IsHigherOrEqual(r, r)
  {
  }

  lemma RootComparesByName(self: Role, other: Role)
    requires self.parentRole.None?
    ensures IsHigherOrEqual(self, other) <==> self.name == other.name
  {
  }

  /** Only `other`'s name is consulted; its own parent never is. */
  lemma OnlyOtherNameMatters(self: Role, o1: Role, o2: Role)
    requires o1.name == o2.name
    ensures IsHigherOrEqual(self, o1) == IsHigherOrEqual(self, o2)
  {
  }

  lemma ChainStep(self: Role, o: Role)
    requires self.parentRole.Some? && IsHigherOrEqual(self.parentRole.value, o)
    ensures IsHigherOrEqual(self, o)
  {
  }

  /** The names of an ancestor's chain are a suffix of the descendant's, starting at position `k`. */
  lemma {:induction false} AncestorChainSuffix(a: Role, r: Role) returns (k: nat)
    requires IsAncestor(a, r)
    ensures k < |Chain(r)| && Chain(r)[k..] == Chain(a)
  {
    if a == r {
      k := 0;
    } else {
      var p := r.parentRole.value;
      var j := AncestorChainSuffix(a, p);
      assert Chain(r) == [r.name] + Chain(p);
      k := j + 1;
      assert Chain(r)[k..] == Chain(p)[j..];
    }
  }

  /** Every role dominates each role in its own parent chain. */
  lemma {:induction false} DominatesAncestors(a: Role, r: Role)
    requires IsAncestor(a, r)
    ensures IsHigherOrEqual(r, a)
  {
    var k := AncestorChainSuffix(a, r);
    assert Chain(r)[k] == a.name;
  }

  /** Transitivity along the real chain: what an ancestor dominates, the descendant dominates. */
  lemma {:induction false} DominanceThroughAncestor(a: Role, r: Role, o: Role)
    requires IsAncestor(a, r) && IsHigherOrEqual(a, o)
    ensures IsHigherOrEqual(r, o)
  {
    var k := AncestorChainSuffix(a, r);
    assert o.name in Chain(r)[k..];
    assert forall x :: x in Chain(r)[k..] ==> x in Chain(r);
  }

  /** Comparison by name is not transitive across unrelated roles that share a name. */
  lemma NotTransitiveAcrossNamesakes()
    ensures var a := Role("x", None);
            var b := Role("x", Some(Role("y", None)));
            var c := Role("y", None);
            IsHigherOrEqual(a, b) && IsHigherOrEqual(b, c) && !IsHigherOrEqual(a, c)
  {
  }

  /** The unit-test hierarchy: `super_admin` with parent `admin` dominates `admin`. */
  lemma SuperAdminDominatesAdmin()
    ensures var admin := Role("admin", None);
            IsHigherOrEqual(Role("super_admin", Some(admin)), admin)
  {
  }

  /** A time-bounded loan of `role` from `delegator` to `delegatee`; `RoleDelegation::new` is the constructor. */
  datatype RoleDelegation = RoleDelegation(delegator: string, delegatee: string, role: Role, expiration: u64)

  /** `RoleDelegation::is_valid`, with the clock reading passed in as `now`. */
  function IsValid(d: RoleDelegation, now: u64): (b: bool)
    ensures !b <==> d.expiration <= now
  {
    now < d.expiration
  }

  /** A delegation is already invalid at its expiration second, and stays invalid after it. */
  lemma DelegationExpires(d: RoleDelegation, now: u64)
    requires d.expiration <= now
    ensures !IsValid(d, now)
  {
  }

  /** Validity only ever goes from true to false as time advances. */
  lemma DelegationValidityMonotone(d: RoleDelegation, t1: u64, t2: u64)
    requires t1 <= t2 && IsValid(d, t2)
    ensures IsValid(d, t1)
  {
  }
}
