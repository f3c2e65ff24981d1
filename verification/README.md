# Authorization core — a Dafny model

This project models the in-process authorization core of a small Rust crate. The crate
tracks users, hierarchical roles, resources with allow-lists of role names, conditional
permissions, time-bounded sessions, delegations and second-factor tokens, and a
fixed-window rate limiter. Its facade, `AccessManager`, answers "may this user open this
resource now?" It refuses unknown users before the shared limiter is touched, lets the
limiter gate every known user, and then asks the user's roles.

Every wall-clock read of the source (`SystemTime::now()`) is an explicit `now: u64`
parameter here. Counters are `u32` and times are `u64`, as in the source, written as
subset types (`MachineInts`). Mutating Rust methods (`&mut self`) become pure functions
that return the new state, and `is_within_limit` and `check_access` return the new state
together with their verdict. Rust `Vec`s are `seq`s, the `HashMap` cache is a `map`, and
`Option` is `Wrappers.Option`. The plain record constructors (`Resource::new`,
`ResourceGroup::new`, `Session::new`, `MultiFactorAuth::new`, `RoleDelegation::new`,
`Role::new`) are the datatype constructors. They store their arguments unchanged by
construction.

One module per source file:

| file | module | source |
|---|---|---|
| role.dfy | `Roles` | src/role.rs |
| resource.dfy | `Resources` | src/resource.rs |
| permission.dfy | `Permissions` | src/permission.rs |
| access_control.dfy | `AccessControls` | src/access_control.rs |
| rate_limiter.dfy | `RateLimiters` | src/rate_limiter.rs |
| access_manager.dfy | `AccessManagers` | src/access_manager.rs |
| session.dfy | `Sessions` | src/session.rs |
| multi_factor_auth.dfy | `MultiFactorAuths` | src/multi_factor_auth.rs |
| ownable.dfy | `Ownables` | src/ownable.rs |
| cache.dfy | `Caches` | src/cache.rs |
| wrappers.dfy, machine_ints.dfy | `Wrappers`, `MachineInts` | `Option`, `u32`, `u64` |

Behaviour worth knowing:

- `is_higher_or_equal` compares names only. It is reflexive and it covers a role's own
  parent chain. It is not transitive in general: two distinct roles may share a name
  (`Roles.NotTransitiveAcrossNamesakes`).
- Resource checks test the literal role name. A role above `admin` in the hierarchy is
  not let in by an allow-list of `["admin"]` (`AccessControls.NoHierarchyExpansion`).
- `add_user` with a name that is already registered appends a second entry. Every
  lookup still finds the first entry, so the new one is never used
  (`AccessManagers.DuplicateUserShadowed`).
- One rate limiter is shared by all users, since `AccessManager` holds a single one. Once
  it refuses, access is denied whatever the roles say (`AccessManagers.RateLimitDominates`).

Representation choices that follow the code:

- Allow-lists are `Vec<String>`, so they are sequences that may hold duplicates.
- The user table is a `Vec` of `(username, AccessControl)` pairs, searched front to back for
  the first entry with the name.
- `transfer_ownership` has no authority check and cannot fail.

## Model

| member | source | states |
|---|---|---|
| Roles.IsHigherOrEqual | src/role.rs:16-24 | the answer is true exactly when `other`'s name is one of the names on `self`'s parent chain, `self` included |
| Roles.Reflexive | src/role.rs:17-18 | every role is higher than or equal to itself |
| Roles.RootComparesByName | src/role.rs:17-23 | a role without a parent is higher than or equal to `other` exactly when the names are equal |
| Roles.OnlyOtherNameMatters | src/role.rs:17 | two `other` roles with the same name get the same answer; `other`'s parent is never looked at |
| Roles.ChainStep | src/role.rs:19-20 | what a role's parent dominates, the role dominates |
| Roles.AncestorChainSuffix | src/role.rs:19-20 | the chain of names of any role owned up a role's parent chain is a suffix of that role's chain |
| Roles.DominatesAncestors | src/role.rs:16-24 | a role dominates every role in its own parent chain (child ≥ parent ≥ grandparent …) |
| Roles.DominanceThroughAncestor | src/role.rs:16-24 | transitivity along the real chain: whatever an ancestor dominates, its descendant dominates |
| Roles.NotTransitiveAcrossNamesakes | src/role.rs:17-23 | a concrete triple `a ≥ b`, `b ≥ c`, not `a ≥ c`, because the comparison goes by name and `a` and `b` share one |
| Roles.SuperAdminDominatesAdmin | src/tests/unit_tests.rs:4-9 | `super_admin` with parent `admin` is higher than or equal to `admin` |
| Roles.IsValid | src/role.rs:45-47 | a delegation is invalid exactly from its expiration second on |
| Roles.DelegationExpires | src/role.rs:45-47 | a delegation is invalid at its expiration second and at every later time |
| Roles.DelegationValidityMonotone | src/role.rs:45-47 | a delegation valid at some time was valid at every earlier time |
| Resources.Contains | src/resource.rs:17 | the front-to-back scan finds `x` exactly when `x` is an element of the list |
| Resources.IsAccessAllowed | src/resource.rs:16-18 | a role name is allowed exactly when it is an element of the allow-list |
| Resources.AnyAllows | src/resource.rs:36 | the scan over a group's resources succeeds exactly when some member resource allows the role |
| Resources.AnyAllowsByIndex | src/resource.rs:36 | the scan over a group succeeds exactly when the allow-list at some position of the group holds the role |
| Resources.GroupIsAccessAllowed | src/resource.rs:35-37 | a group allows a role exactly when some member resource's allow-list holds it |
| Resources.EmptyAllowListDenies | src/resource.rs:17 | an empty allow-list refuses every role |
| Resources.EmptyGroupDenies | src/resource.rs:36 | an empty group refuses every role |
| Resources.GroupAppend | src/resource.rs:36 | appending a resource to a group adds exactly that resource's grants |
| Resources.GroupAppendMonotone | src/resource.rs:36 | appending a resource never turns an allowed role into a refused one |
| Resources.AdminOnlyResource | src/resource.rs:16-18 | an allow-list `["admin"]` admits `admin` and refuses `guest` |
| Permissions.IsGranted | src/permission.rs:9-17 | granted exactly when no condition is stored or the candidate equals the stored condition |
| Permissions.UnconditionalAlwaysGranted | src/permission.rs:10-16 | with no stored condition every candidate, `None` included, is granted |
| Permissions.ConditionalNeedsCandidate | src/permission.rs:11-14 | with a stored condition the candidate `None` is refused |
| Permissions.ConditionalExactMatch | src/permission.rs:11-14 | with stored condition `c`, `Some(x)` is granted exactly when `x == c` |
| Permissions.IgnoresNameAndResource | src/permission.rs:9-17 | the action and resource fields take no part in the decision |
| AccessControls.New | src/access_control.rs:9-13 | a fresh access control holds no roles |
| AccessControls.AddRole | src/access_control.rs:16-18 | the old roles are kept in place and the new role sits at the end, one longer; no dedup |
| AccessControls.AnyRoleAllowed | src/access_control.rs:22-27 | the loop returns true exactly when some assigned role's name is on the resource's allow-list |
| AccessControls.HasAccess | src/access_control.rs:21-28 | access holds exactly when some assigned role's name is on the resource's allow-list |
| AccessControls.HasRole | src/access_control.rs:31-33 | the user has a role name exactly when some assigned role carries it |
| AccessControls.AnyRoleNamed | src/access_control.rs:32 | the `any` holds exactly when some assigned role has the name |
| AccessControls.NewGrantsNothing | src/access_control.rs:9-13 | a fresh access control has no access to any resource and no role of any name |
| AccessControls.AddRoleGivesRole | src/access_control.rs:16-18 | after `add_role(r)` the user has a role named `r.name` |
| AccessControls.AddRoleAccess | src/access_control.rs:16-28 | after `add_role(r)` access holds exactly when it held before or the resource allows `r.name` |
| AccessControls.AddRoleMonotone | src/access_control.rs:16-33 | `add_role` keeps every access and every role the user had |
| AccessControls.HasAccessByNames | src/access_control.rs:21-28 | access is decided by the names of the roles alone |
| AccessControls.HasAccessOrderAndParentIndependent | src/access_control.rs:21-28 | two role lists with the same names give the same access: role order, duplicates and parent chains do not matter |
| AccessControls.NoHierarchyExpansion | src/access_control.rs:23 | a `super_admin` above `admin` is refused by an allow-list holding only `admin` |
| RateLimiters.New | src/rate_limiter.rs:10-17 | a fresh limiter stores its budget and window, has counted nothing and starts its window at `now` |
| RateLimiters.IsWithinLimit | src/rate_limiter.rs:20-35 | resets (window start `now`, count 0) exactly when more than `window` seconds have passed; then admits exactly when the count is under budget, adding one; a refusal leaves the count; budget and window never change; the window start never decreases; the count never exceeds the budget once it did not |
| RateLimiters.RejectedKeepsCount | src/rate_limiter.rs:32-34 | a refused call leaves the request count, budget and window as they were; only the window start may move |
| RateLimiters.ExpiredWindowReadmits | src/rate_limiter.rs:23-31 | after the window has run out a limiter with a non-zero budget admits again, with count 1 and window start `now` |
| RateLimiters.RunWithinWindow | src/rate_limiter.rs:23-34 | inside one window the i-th call is admitted exactly when the count plus i is under budget |
| RateLimiters.RunAdmitsAtMostBudget | src/rate_limiter.rs:29-34 | inside one window no more calls are admitted than the budget has left |
| RateLimiters.FreshLimiterAdmitsExactlyBudget | src/rate_limiter.rs:10-35 | a fresh limiter with budget n admits the first n calls of its first window and refuses the rest |
| RateLimiters.FiveThenReject | src/tests/integration_test.rs:13-17 | budget 5, window 60: five calls pass and the sixth fails |
| AccessManagers.FindUser | src/access_manager.rs:25 | the lookup returns the first entry with the name, or nothing when no entry has it |
| AccessManagers.New | src/access_manager.rs:9-14 | a fresh manager has no users and a limiter of 100 requests per 60 seconds that has counted nothing |
| AccessManagers.AddUser | src/access_manager.rs:17-21 | exactly one entry is appended, holding the name and just the given role; earlier entries and the limiter are unchanged |
| AccessManagers.CheckAccess | src/access_manager.rs:24-31 | the user list never changes; an unknown user is refused with the limiter untouched; a known user steps the limiter once and is granted exactly when admitted and the first entry's roles give access |
| AccessManagers.AddRoleToUser | src/access_manager.rs:34-38 | only the first entry with the name gains the role; without one nothing changes; the limiter is never touched |
| AccessManagers.UnknownUserDenied | src/access_manager.rs:25-30 | an unknown user is refused at every time and spends none of the shared budget |
| AccessManagers.RateLimitDominates | src/access_manager.rs:26-30 | once the limiter refuses, a known user is denied whatever the roles say |
| AccessManagers.ExhaustedBudgetDenies | src/access_manager.rs:24-31 | with the budget spent inside the current window every known user is denied and nothing changes |
| AccessManagers.DuplicateUserShadowed | src/access_manager.rs:17-21 | registering a name again leaves its lookup on the old entry, so the new entry is never used |
| AccessManagers.AddUserFindsNewEntry | src/access_manager.rs:17-21 | a name not yet registered is found at the entry just appended |
| AccessManagers.AddRoleToUserGivesRole | src/access_manager.rs:34-38 | after `add_role_to_user` the user's first entry holds a role of that name |
| AccessManagers.BobAdminScenario | src/tests/integration_test.rs:5-10 | on a fresh manager `bob` added as `admin` may open a file allowing `admin` |
| AccessManagers.EveRefused | src/access_manager.rs:25-30 | on the same manager the unregistered `eve` is refused |
| Sessions.Retain | src/session.rs:40-45 | the kept elements all pass the test, an element is kept exactly when it was present and passes, and the list gets no longer |
| Sessions.RetainMultiplicity | src/session.rs:40-45 | every element that passes the test is kept as often as it occurred, and no other element is kept at all |
| Sessions.RetainAppend | src/session.rs:40-45 | retaining acts on each part of a concatenation separately, so relative order is kept |
| Sessions.RetainIdempotent | src/session.rs:40-45 | retaining twice with the same test equals retaining once |
| Sessions.New | src/session.rs:28-32 | a fresh manager holds no sessions |
| Sessions.AddSession | src/session.rs:34-36 | the session is appended at the end and the others are kept in place |
| Sessions.IsSessionValid | src/session.rs:18-20 | a session is invalid exactly from its expiration second on |
| Sessions.AddThenEndSession | src/session.rs:34-41 | adding a session and then ending its token leaves the same sessions as ending the token alone |
| Sessions.EndSession | src/session.rs:39-41 | exactly the sessions whose token differs remain, each as often as before; none with the token is left |
| Sessions.EndAllSessions | src/session.rs:44-46 | exactly the sessions of other users remain, each as often as before |
| Sessions.EndingIsIdempotent | src/session.rs:40-45 | ending a session, or a user's sessions, twice equals doing it once |
| Sessions.EndSessionPreservesOrder | src/session.rs:40 | ending a session keeps the relative order of the remaining sessions |
| Sessions.EndAllSessionsPreservesOrder | src/session.rs:45 | ending a user's sessions keeps the relative order of the remaining sessions |
| Sessions.SessionExpires | src/session.rs:18-20 | a session is invalid from its expiration second on |
| MultiFactorAuths.VerifyToken | src/multi_factor_auth.rs:17-19 | a token is refused exactly when the expiration second has been reached or it differs from the stored token |
| MultiFactorAuths.WrongTokenRejected | src/multi_factor_auth.rs:18 | a token other than the stored one is refused at every time |
| MultiFactorAuths.ExpiredRejectsAll | src/multi_factor_auth.rs:18 | from the expiration second on every token is refused, the right one included |
| MultiFactorAuths.RightTokenInTimeAccepted | src/multi_factor_auth.rs:17-19 | before expiration the stored token is accepted |
| MultiFactorAuths.IgnoresUser | src/multi_factor_auth.rs:17-19 | the `user` field takes no part in verification |
| Ownables.New | src/ownable.rs:8-12 | the owner of a fresh value is the one it was created with |
| Ownables.TransferOwnership | src/ownable.rs:15-17 | after a transfer the owner is the new one, whoever asked |
| Ownables.GetOwner | src/ownable.rs:20-22 | the owner returned determines the value completely: rebuilding from it gives the same `Ownable` |
| Ownables.LastTransferWins | src/ownable.rs:15-22 | after a run of transfers the owner is the last one transferred to; no transfers, no change |
| Ownables.TransferIdempotent | src/ownable.rs:15-17 | transferring to the same owner twice equals doing it once |
| Ownables.AliceToDave | src/ownable.rs:48-59 | `alice`, then `bob`, `charlie` and `dave`: the owner ends as `dave` |
| Caches.New | src/cache.rs:8-12 | a fresh cache answers `None` for every key |
| Caches.CheckCache | src/cache.rs:14-16 | a key reads as `None` exactly when nothing is stored for it, and otherwise as the stored decision |
| Caches.AddToCache | src/cache.rs:18-20 | the written key reads back the written value and every other key reads as before |
| Caches.OverwriteWins | src/cache.rs:19 | the later of two writes to a key wins |

## Left out

- Clock: every `SystemTime::now()` read is a `now: u64` parameter. Nothing says how successive readings relate, except where a lemma asks for non-decreasing times.
- RateLimiters.IsWithinLimit: requires `startTime <= now`. The source computes `current_time - start_time` in `u64`; a clock that runs backwards would panic (debug builds) or wrap round and reset the window (release builds). Neither is modelled.
- AccessManagers.CheckAccess: requires the same of the limiter's window start, but only for a known user, because the source reads the clock only then.
- Concurrency: the source has no locking and the model is sequential.
- `AuditLog::new` (src/audit_log.rs): a record constructor whose only behaviour is a clock read.
- `AccessError` (src/error.rs): no code uses it.
- src/lib.rs and wasm_build/build.rs: module declarations and a foreign-function wrapper, with no core logic.
- `Debug`/`Clone` derives, `String` allocation and `HashMap` hashing: representation details with no effect on the decisions.
- The pure queries (`has_access`, `has_role`, `is_access_allowed`, …) are Dafny functions, so asking twice gives the same answer by construction. No lemma states it.
