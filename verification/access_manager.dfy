/** The facade: a user list with first-match lookup and one rate limiter shared by all users. */
module AccessManagers {

  import opened Wrappers
  import opened MachineInts
  import opened Roles
  import opened Resources
  import opened AccessControls
  import opened RateLimiters

  /** One `(username, AccessControl)` pair of the user list. */
  datatype UserEntry = UserEntry(username: string, access: AccessControl)

  /** Entries in insertion order; a username may appear more than once. */
  datatype AccessManager = AccessManager(users: seq<UserEntry>, rateLimiter: RateLimiter)

  /** The result of `check_access`: the manager afterwards and the decision. */
  datatype Decision = Decision(manager: AccessManager, granted: bool)

  /** The default admission budget: 100 requests per 60-second window. */
  const DefaultMaxRequests: u32 := 100
  const DefaultWindow: u64 := 60

  /** `iter().find`: the position of the first entry for `username`, if any. */
  function FindUser(users: seq<UserEntry>, username: string): (found: Option<nat>)
    ensures found.Some? ==> found.value < |users| && users[found.value].username == username
    ensures found.Some? ==> forall k :: 0 <= k < found.value ==> users[k].username != username
    ensures found.None? <==> forall k :: 0 <= k < |users| ==> users[k].username != username
  {
    if |users| == 0 then None
    else if users[0].username == username then Some(0)
    else match FindUser(users[1..], username)
      case Some(j) => Some(j + 1)
      case None => None
  }

  /** `AccessManager::new`, with the clock reading its limiter starts from passed in as `now`. */
  function New(now: u64): (m: AccessManager)
    ensures |m.users| == 0
    ensures m.rateLimiter.maxRequests == 100 && m.rateLimiter.window == 60
    ensures m.rateLimiter.requests == 0 && m.rateLimiter.startTime == now
  {
    AccessManager([], RateLimiters.New(DefaultMaxRequests, DefaultWindow, now))
  }

  /** `AccessManager::add_user`: append a fresh entry holding just `role`, even if the name is taken. */
  function AddUser(m: AccessManager, username: string, role: Role): (m': AccessManager)
    ensures |m'.users| == |m.users| + 1
    ensures m'.users[..|m.users|] == m.users
    ensures m'.users[|m.users|].username == username
    ensures m'.users[|m.users|].access.userRoles == [role]
    ensures m'.rateLimiter == m.rateLimiter
  {
    AccessManager(m.users + [UserEntry(username, AddRole(AccessControls.New(), role))], m.rateLimiter)
  }

  /** Whether the clock reading `now` is one `check_access` may subtract the window start from. */
  predicate ClockOk(m: AccessManager, username: string, now: u64)
  {
    FindUser(m.users, username).Some? ==> m.rateLimiter.startTime <= now
  }

  /** `AccessManager::check_access` at time `now`: unknown users are refused before the limiter is
      consulted; known users pass the limiter first, then the roles of their first entry decide. */
  function CheckAccess(m: AccessManager, username: string, res: Resource, now: u64): (d: Decision)
    requires ClockOk(m, username, now)
    ensures d.manager.users == m.users
    ensures FindUser(m.users, username).None? ==> !d.granted && d.manager == m
    ensures FindUser(m.users, username).Some? ==>
              var a := IsWithinLimit(m.rateLimiter, now);
              && d.manager.rateLimiter == a.limiter
              && (d.granted <==> a.admitted && HasAccess(m.users[FindUser(m.users, username).value].access, res))
  {
    match FindUser(m.users, username)
    case None => Decision(m, false)
    case Some(j) =>
      var a := IsWithinLimit(m.rateLimiter, now);
      Decision(m.(rateLimiter := a.limiter), a.admitted && HasAccess(m.users[j].access, res))
  }

  /** `AccessManager::add_role_to_user`: the role goes to the first entry for `username` only. */
  function AddRoleToUser(m: AccessManager, username: string, role: Role): (m': AccessManager)
    ensures m'.rateLimiter == m.rateLimiter
    ensures |m'.users| == |m.users|
    ensures FindUser(m.users, username).None? ==> m' == m
    ensures FindUser(m.users, username).Some? ==>
              var j := FindUser(m.users, username).value;
              && m'.users[j] == UserEntry(username, AddRole(m.users[j].access, role))
              && forall k :: 0 <= k < |m.users| && k != j ==> m'.users[k] == m.users[k]
  {
    match FindUser(m.users, username)
    case None => m
    case Some(j) => m.(users := m.users[j := m.users[j].(access := AddRole(m.users[j].access, role))])
  }

  /** An unknown user is refused at every time, and the shared budget is not spent on them. */
  lemma UnknownUserDenied(m: AccessManager, username: string, res: Resource, now: u64)
    requires FindUser(m.users, username).None?
    ensures !CheckAccess(m, username, res, now).granted
    ensures CheckAccess(m, username, res, now).manager.rateLimiter == m.rateLimiter
  {
  }

  /** The admission gate dominates: once the limiter refuses, even a user with a granting role is denied. */
  lemma RateLimitDominates(m: AccessManager, username: string, res: Resource, now: u64)
    requires ClockOk(m, username, now)
    requires FindUser(m.users, username).Some?
    requires !IsWithinLimit(m.rateLimiter, now).admitted
    ensures !CheckAccess(m, username, res, now).granted
  {
  }

  /** An exhausted budget inside the current window refuses every known user. */
  lemma ExhaustedBudgetDenies(m: AccessManager, username: string, res: Resource, now: u64)
    requires FindUser(m.users, username).Some?
    requires m.rateLimiter.startTime <= now <= m.rateLimiter.startTime + m.rateLimiter.window
    requires m.rateLimiter.requests >= m.rateLimiter.maxRequests
    ensures !CheckAccess(m, username, res, now).granted
    ensures CheckAccess(m, username, res, now).manager == m
  {
  }

  /** Adding a name that is already registered leaves every lookup of it on the old entry:
      the new entry is unreachable by `check_access` and `add_role_to_user`. */
  lemma DuplicateUserShadowed(m: AccessManager, username: string, role: Role)
    requires FindUser(m.users, username).Some?
    ensures FindUser(AddUser(m, username, role).users, username) == FindUser(m.users, username)
  {
  }

  /** A newly registered name is found at the entry just appended, holding exactly the given role. */
  lemma AddUserFindsNewEntry(m: AccessManager, username: string, role: Role)
    requires FindUser(m.users, username).None?
    ensures FindUser(AddUser(m, username, role).users, username) == Some(|m.users|)
  {
  }

  /** After `add_role_to_user`, the user's (first) entry holds a role of that name. */
  lemma AddRoleToUserGivesRole(m: AccessManager, username: string, role: Role)
    requires FindUser(m.users, username).Some?
    ensures var m' := AddRoleToUser(m, username, role);
            FindUser(m'.users, username) == FindUser(m.users, username)
            && HasRole(m'.users[FindUser(m.users, username).value].access, role.name)
  {
  }

  /** The integration scenario: on a fresh manager, `bob` added as `admin` may open a file that allows `admin`. */
  lemma BobAdminScenario(t0: u64, now: u64)
    requires t0 <= now
    ensures var m := AddUser(New(t0), "bob", Role("admin", None));
            CheckAccess(m, "bob", Resource("secure_file", ["admin"]), now).granted
  {
  }

  /** ... and an unregistered `eve` is refused on the same file. */
  lemma EveRefused(t0: u64, now: u64)
    ensures var m := AddUser(New(t0), "bob", Role("admin", None));
            !CheckAccess(m, "eve", Resource("secure_file", ["admin"]), now).granted
  {
  }
}
