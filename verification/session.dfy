/** Time-bounded sessions and a manager that holds several of them. */
module Sessions {

  import opened MachineInts

  /** `Session::new` is the constructor. */
  datatype Session = Session(user: string, sessionToken: string, expiration: u64)

  datatype MultiSessionManager = MultiSessionManager(sessions: seq<Session>)

  /** `Session::is_session_valid`, with the clock reading passed in as `now`. */
  function IsSessionValid(s: Session, now: u64): (b: bool)
    ensures !b <==> s.expiration <= now
  {
    now < s.expiration
  }

  /** `Vec::retain`: keep the elements `keep` accepts, in their original order. */
  function Retain<T(!new)>(xs: seq<T>, keep: T -> bool): (r: seq<T>)
    ensures |r| <= |xs|
    ensures forall i :: 0 <= i < |r| ==> keep(r[i])
    ensures forall x :: x in r <==> x in xs && keep(x)
  {
    if |xs| == 0 then []
    else (if keep(xs[0]) then [xs[0]] else []) + Retain(xs[1..], keep)
  }

  /** Every element the test accepts survives as often as it occurred; the others not at all. */
  lemma {:induction false} RetainMultiplicity<T(!new)>(xs: seq<T>, keep: T -> bool)
    ensures forall x :: multiset(Retain(xs, keep))[x] == if keep(x) then multiset(xs)[x] else 0
  {
    if |xs| > 0 {
      RetainMultiplicity(xs[1..], keep);
      assert xs == [xs[0]] + xs[1..];
    }
  }

  /** Retaining distributes over concatenation: the survivors of `a` stay in front of those of `b`. */
  lemma {:induction false} RetainAppend<T(!new)>(a: seq<T>, b: seq<T>, keep: T -> bool)
    ensures Retain(a + b, keep) == Retain(a, keep) + Retain(b, keep)
  {
    if |a| == 0 {
      assert a + b == b;
    } else {
      assert (a + b)[1..] == a[1..] + b;
      RetainAppend(a[1..], b, keep);
    }
  }

  /** Retaining twice with the same test removes nothing more. */
  lemma {:induction false} RetainIdempotent<T(!new)>(xs: seq<T>, keep: T -> bool)
    ensures Retain(Retain(xs, keep), keep) == Retain(xs, keep)
  {
    if |xs| > 0 {
      RetainIdempotent(xs[1..], keep);
      var head := if keep(xs[0]) then [xs[0]] else [];
      RetainAppend(head, Retain(xs[1..], keep), keep);
    }
  }

  function New(): (m: MultiSessionManager)
    ensures |m.sessions| == 0
  {
    MultiSessionManager([])
  }

  /** `MultiSessionManager::add_session`: push onto the end. */
  function AddSession(m: MultiSessionManager, s: Session): (m': MultiSessionManager)
    ensures |m'.sessions| == |m.sessions| + 1
    ensures m'.sessions[..|m.sessions|] == m.sessions && m'.sessions[|m.sessions|] == s
  {
    MultiSessionManager(m.sessions + [s])
  }

  /** `MultiSessionManager::end_session`: drop every session carrying `token`. */
  function EndSession(m: MultiSessionManager, token: string): (m': MultiSessionManager)
    ensures |m'.sessions| <= |m.sessions|
    ensures forall s :: s in m'.sessions <==> s in m.sessions && s.sessionToken != token
    ensures forall s: Session :: s.sessionToken != token ==> multiset(m'.sessions)[s] == multiset(m.sessions)[s]
  {
    RetainMultiplicity(m.sessions, (s: Session) => s.sessionToken != token);
    MultiSessionManager(Retain(m.sessions, (s: Session) => s.sessionToken != token))
  }

  /** `MultiSessionManager::end_all_sessions`: drop every session of `user`. */
  function EndAllSessions(m: MultiSessionManager, user: string): (m': MultiSessionManager)
    ensures |m'.sessions| <= |m.sessions|
    ensures forall s :: s in m'.sessions <==> s in m.sessions && s.user != user
    ensures forall s: Session :: s.user != user ==> multiset(m'.sessions)[s] == multiset(m.sessions)[s]
  {
    RetainMultiplicity(m.sessions, (s: Session) => s.user != user);
    MultiSessionManager(Retain(m.sessions, (s: Session) => s.user != user))
  }

  /** Ending a session twice is the same as ending it once; likewise for a user's sessions. */
  lemma EndingIsIdempotent(m: MultiSessionManager, token: string, user: string)
    ensures EndSession(EndSession(m, token), token) == EndSession(m, token)
    ensures EndAllSessions(EndAllSessions(m, user), user) == EndAllSessions(m, user)
  {
    RetainIdempotent(m.sessions, (s: Session) => s.sessionToken != token);
    RetainIdempotent(m.sessions, (s: Session) => s.user != user);
  }

  /** Ending a session keeps the relative order: it acts on each half of the list separately. */
  lemma EndSessionPreservesOrder(a: seq<Session>, b: seq<Session>, token: string)
    ensures EndSession(MultiSessionManager(a + b), token).sessions
            == EndSession(MultiSessionManager(a), token).sessions + EndSession(MultiSessionManager(b), token).sessions
  {
    RetainAppend(a, b, (s: Session) => s.sessionToken != token);
  }

  /** Ending a user's sessions keeps the relative order of the others in the same way. */
  lemma EndAllSessionsPreservesOrder(a: seq<Session>, b: seq<Session>, user: string)
    ensures EndAllSessions(MultiSessionManager(a + b), user).sessions
            == EndAllSessions(MultiSessionManager(a), user).sessions + EndAllSessions(MultiSessionManager(b), user).sessions
  {
    RetainAppend(a, b, (s: Session) => s.user != user);
  }

  /** Adding a session and then ending its token leaves the same sessions as ending the token alone. */
  lemma AddThenEndSession(m: MultiSessionManager, s: Session)
    ensures EndSession(AddSession(m, s), s.sessionToken) == EndSession(m, s.sessionToken)
  {
    RetainAppend(m.sessions, [s], (x: Session) => x.sessionToken != s.sessionToken);
  }

  /** A session is already invalid at its expiration second. */
  lemma SessionExpires(s: Session, now: u64)
    requires s.expiration <= now
    ensures !IsSessionValid(s, now)
  {
  }
}
