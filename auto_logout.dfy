/** Inactivity logout (`useAutoLogout`): user activity restarts the clock; a
    check once a minute warns five minutes before the limit and signs the
    user out at the limit. Timers and event listeners become explicit calls,
    each with the current time. */
module AutoLogout {
  import opened Model

  /** The default inactivity limit, two hours in milliseconds. */
  const DefaultLimit: int := 7200000
  /** How long before the limit the warning comes: five minutes. */
  const WarningLead: int := 5 * 60 * 1000

  function WarningTime(limit: int): int
  {
    limit - WarningLead
  }

  /** The hook's state: the last activity, whether the warning was shown,
      and whether the periodic check was stopped by a logout. */
  datatype Session = Session(lastActivity: int, warningShown: bool, stopped: bool)

  /** What one check does. */
  datatype Outcome = Outcome(warn: bool, logout: bool)

  /** One run of the interval callback at time `now`. Setting the warning
      flag re-runs the effect, which starts a fresh interval, so a logout in
      the same check as the warning does not stop the checks. */
  function Check(s: Session, limit: int, now: int): (r: (Session, Outcome))
    requires !s.stopped
    ensures r.1.warn <==> now - s.lastActivity >= WarningTime(limit) && !s.warningShown
    ensures r.1.logout <==> now - s.lastActivity >= limit
    ensures r.0.lastActivity == s.lastActivity
    ensures r.0.warningShown <==> s.warningShown || r.1.warn
    ensures r.0.stopped <==> r.1.logout && !r.1.warn
  {
    var inactive := now - s.lastActivity;
    var warn := inactive >= WarningTime(limit) && !s.warningShown;
    var logout := inactive >= limit;
    (Session(s.lastActivity, s.warningShown || warn, logout && !warn), Outcome(warn, logout))
  }

  /** `updateActivity`: the clock restarts and the warning may come again;
      the changed state re-runs the effect, so checking resumes. */
  function Touch(now: int): Session
  {
    Session(now, false, false)
  }

  /** A logout check always ends with the warning shown: the warning point
      lies before the limit, so a check that logs out has passed it too. */
  lemma LogoutAfterWarning(s: Session, limit: int, now: int)
    requires !s.stopped
    ensures Check(s, limit, now).1.logout ==> Check(s, limit, now).0.warningShown
  {
  }

  /** The checks of a run of times with no activity in between, stopping at
      the first logout that stops the interval. */
  function Checks(s: Session, limit: int, times: seq<int>): (outs: seq<Outcome>)
    ensures |outs| <= |times|
    decreases |times|
  {
    if times == [] || s.stopped then []
    else
      var (next, out) := Check(s, limit, times[0]);
      [out] + Checks(next, limit, times[1..])
  }

  /** The effect re-run in practice: when the first check past the limit is
      also the one that warns, the interval survives it, so the next check
      requests a second sign-out and only then stops. */
  lemma {:induction false} WarnedLogoutChecksAgain(s: Session, limit: int, times: seq<int>)
    requires !s.stopped && !s.warningShown
    requires |times| >= 2
    requires times[0] - s.lastActivity >= limit && times[1] - s.lastActivity >= limit
    ensures Checks(s, limit, times) == [Outcome(true, true), Outcome(false, true)]
  {
    var (next, out) := Check(s, limit, times[0]);
    assert out == Outcome(true, true) && next == Session(s.lastActivity, true, false);
    var (last, out2) := Check(next, limit, times[1]);
    assert out2 == Outcome(false, true) && last.stopped;
    assert times[1..][0] == times[1];
    assert Checks(next, limit, times[1..]) == [out2] + Checks(last, limit, times[2..]);
  }

  function WarningCount(outs: seq<Outcome>): nat
  {
    if outs == [] then 0 else (if outs[0].warn then 1 else 0) + WarningCount(outs[1..])
  }

  /** Between two activities the warning is raised at most once, and not at
      all once it has been shown. */
  lemma {:induction false} AtMostOneWarning(s: Session, limit: int, times: seq<int>)
    ensures WarningCount(Checks(s, limit, times)) <= (if s.warningShown then 0 else 1)
    decreases |times|
  {
    if times != [] && !s.stopped {
      var (next, out) := Check(s, limit, times[0]);
      AtMostOneWarning(next, limit, times[1..]);
      assert Checks(s, limit, times) == [out] + Checks(next, limit, times[1..]);
      assert ([out] + Checks(next, limit, times[1..]))[1..] == Checks(next, limit, times[1..]);
    }
  }

  /** A session not yet warned is never logged out without the warning: a
      logout check of a run is itself, or comes after, a warning check. */
  lemma {:induction false} WarnedBeforeLogout(s: Session, limit: int, times: seq<int>, k: nat)
    requires !s.warningShown
    requires k < |Checks(s, limit, times)| && Checks(s, limit, times)[k].logout
    ensures exists j :: 0 <= j <= k && Checks(s, limit, times)[j].warn
    decreases |times|
  {
    var (next, out) := Check(s, limit, times[0]);
    assert Checks(s, limit, times) == [out] + Checks(next, limit, times[1..]);
    if !out.warn {
      assert k > 0;
      assert !next.warningShown;
      WarnedBeforeLogout(next, limit, times[1..], k - 1);
      var j :| 0 <= j <= k - 1 && Checks(next, limit, times[1..])[j].warn;
      assert Checks(s, limit, times)[j + 1].warn;
    } else {
      assert Checks(s, limit, times)[0].warn;
    }
  }

  class Logout {
    var isAuthenticated: bool
    const inactivityTime: int
    var session: Session
    /** Sign-outs requested so far. */
    var logouts: nat

    /** Mounting the hook at `now`; `inactivityTime` None takes the default. */
    constructor (isAuthenticated: bool, inactivityTime: Option<int>, now: int)
      ensures this.isAuthenticated == isAuthenticated
      ensures this.inactivityTime == (if inactivityTime.Some? then inactivityTime.value else DefaultLimit)
      ensures session == Touch(now) && logouts == 0
    {
      this.isAuthenticated := isAuthenticated;
      this.inactivityTime := if inactivityTime.Some? then inactivityTime.value else DefaultLimit;
      session := Touch(now);
      logouts := 0;
    }

    /** A mouse move, key press, click or touch at `now`; ignored unless
        signed in, when no listener is attached. */
    method Activity(now: int)
      modifies this`session
      ensures isAuthenticated ==> session == Touch(now)
      ensures !isAuthenticated ==> session == old(session)
    {
      if isAuthenticated {
        session := Touch(now);
      }
    }

    /** The sign-in state changes; signing in counts as activity. */
    method SetAuthenticated(b: bool, now: int)
      modifies this`isAuthenticated, this`session
      ensures isAuthenticated == b
      ensures b && !old(isAuthenticated) ==> session == Touch(now)
      ensures !(b && !old(isAuthenticated)) ==> session == old(session)
    {
      if b && !isAuthenticated {
        session := Touch(now);
      }
      isAuthenticated := b;
    }

    /** The minute timer fires at `now`. Nothing happens when signed out or
        after a logout stopped the timer; otherwise the check runs, showing
        the warning and requesting the sign-out as it says. */
    method Tick(now: int) returns (out: Outcome)
      modifies this`session, this`logouts
      ensures !isAuthenticated || old(session).stopped ==>
                out == Outcome(false, false) && session == old(session) && logouts == old(logouts)
      ensures isAuthenticated && !old(session).stopped ==>
                (session, out) == Check(old(session), inactivityTime, now)
                && logouts == old(logouts) + (if out.logout then 1 else 0)
    {
      if !isAuthenticated || session.stopped {
        return Outcome(false, false);
      }
      var step := Check(session, inactivityTime, now);
      session, out := step.0, step.1;
      if out.logout {
        logouts := logouts + 1;
      }
    }
  }
}
