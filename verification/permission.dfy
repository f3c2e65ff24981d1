/** Actions on resources, optionally gated by a condition tag. */
module Permissions {

  import opened Wrappers

  datatype Permission = Permission(name: string, resource: string, condition: Option<string>)

  /** `Permission::is_granted`: without a stored condition, always; with one, only an equal candidate. */
  function IsGranted(p: Permission, candidate: Option<string>): (b: bool)
    ensures b <==> p.condition.None? || candidate == p.condition
  {
    match p.condition
    case Some(c) => candidate.Some? && candidate.value == c
    case None => true
  }

  lemma UnconditionalAlwaysGranted(p: Permission, candidate: Option<string>)
    requires p.condition.None?
    ensures IsGranted(p, candidate)
  {
  }

  lemma ConditionalNeedsCandidate(p: Permission)
    requires p.condition.Some?
    ensures !IsGranted(p, None)
  {
  }

  lemma ConditionalExactMatch(p: Permission, x: string)
    requires p.condition.Some?
    ensures IsGranted(p, Some(x)) <==> x == p.condition.value
  {
  }

  /** The action name and the resource name never take part in the decision. */
  lemma IgnoresNameAndResource(p: Permission, q: Permission, candidate: Option<string>)
    requires p.condition == q.condition
    ensures IsGranted(p, candidate) == IsGranted(q, candidate)
  {
  }
}
