/**
 * What the plugin's transitions promise, stated over `IdleState`.
 */
module IdleProperties {
  import opened Wrappers
  import opened Config
  import opened Js
  import opened Template
  import opened IdleState

  // ---------------------------------------------------------------- activity

  /**
   * `handleActivity` sets the last activity time to the event's non-zero timestamp, or
   * to `now`, and reschedules the logout from it; no other field changes.
   */
  lemma HandleActivityEffect(s: State, e: Value, now: int)
    ensures var r := HandleActivity(s, e, now);
            var t := ActivityTimestamp(e, now);
            && r.lastActivityTime == t
            && r.logoutTimeoutPointer == Some(s.settings.idleMilliseconds - (now - t) * 1000)
            && r.logoutTime == Some(now * 1000 + r.logoutTimeoutPointer.value)
            && r.(lastActivityTime := s.lastActivityTime, logoutTimeoutPointer := s.logoutTimeoutPointer,
                  logoutTime := s.logoutTime) == s
  {
  }

  /** Without a usable event timestamp the logout timeout is the full idle time. */
  lemma HandleActivityNow(s: State, e: Value, now: int)
    requires !e.Obj? || e.timestamp.None? || e.timestamp == Some(0)
    ensures HandleActivity(s, e, now).lastActivityTime == now
    ensures HandleActivity(s, e, now).logoutTimeoutPointer == Some(s.settings.idleMilliseconds)
  {
  }

  /** Handling the same activity twice at the same time is handling it once. */
  lemma HandleActivityIdempotent(s: State, e: Value, now: int)
    ensures HandleActivity(HandleActivity(s, e, now), e, now) == HandleActivity(s, e, now)
  {
  }

  // ---------------------------------------------------------------- resetFromTime

  /**
   * `resetFromTime(t)` leaves exactly one logout timeout pending, with delay
   * `idleMilliseconds - (now - t) * 1000`, and `logoutTime == now * 1000 + delay`;
   * the other timers, the last activity time and the cookie are unchanged.
   */
  lemma ResetFromTimeEffect(s: State, t: int, now: int)
    ensures var r := ResetFromTime(s, t, now);
            && r.logoutTimeoutPointer == Some(s.settings.idleMilliseconds - (now - t) * 1000)
            && r.logoutTime == Some(now * 1000 + r.logoutTimeoutPointer.value)
            && r.updateTimeoutPointer == s.updateTimeoutPointer
            && r.logoutCountdownPointer == s.logoutCountdownPointer
            && r.countdownIntervalPointer == s.countdownIntervalPointer
            && r.lastActivityTime == s.lastActivityTime
            && r.cookie == s.cookie
  {
  }

  /** A later activity time never brings the logout earlier. */
  lemma ResetFromTimeMonotone(s: State, t1: int, t2: int, now: int)
    requires t1 <= t2
    ensures ResetFromTime(s, t1, now).logoutTime.value <= ResetFromTime(s, t2, now).logoutTime.value
  {
  }

  // ---------------------------------------------------------------- update

  /**
   * `update` against a cookie holding `c`: local ahead writes the cookie and keeps the
   * local time and the logout schedule; cookie ahead is adopted and the logout
   * rescheduled from it; equal changes neither. Afterwards local and cookie agree and
   * neither went back.
   */
  lemma UpdateSync(s: State, c: int, now: int)
    requires s.cookie == Some(c)
    ensures var r := Update(s, now);
            && (s.lastActivityTime > c ==>
                  r.cookie == Some(s.lastActivityTime) && r.lastActivityTime == s.lastActivityTime
                  && r.logoutTime == s.logoutTime && r.logoutTimeoutPointer == s.logoutTimeoutPointer)
            && (s.lastActivityTime < c ==>
                  r.cookie == s.cookie && r.lastActivityTime == c
                  && r == ResetFromTime(s.(lastActivityTime := c), c, now)
                            .(updateTimeoutPointer := Some(s.settings.updateMilliseconds)))
            && (s.lastActivityTime == c ==>
                  r == s.(updateTimeoutPointer := Some(s.settings.updateMilliseconds)))
            && r.cookie == Some(r.lastActivityTime)
            && r.lastActivityTime >= s.lastActivityTime
            && r.cookie.value >= c
  {
  }

  /** A second `update` with nobody else writing the cookie changes nothing. */
  lemma UpdateSettles(s: State, now1: int, now2: int)
    requires s.cookie.Some?
    ensures Update(Update(s, now1), now2) == Update(s, now1)
  {
  }

  /**
   * Two tabs sharing the cookie converge: after tab `a` updates, then tab `b` (seeing
   * `a`'s write), then `a` again (seeing `b`'s), both hold the latest of the three
   * activity times, and so does the cookie.
   */
  lemma CrossTabConvergence(a: State, b: State, c: int, n1: int, n2: int, n3: int)
    requires a.cookie == Some(c) && b.cookie == Some(c)
    ensures var a1 := Update(a, n1);
            var b1 := Update(b.(cookie := a1.cookie), n2);
            var a2 := Update(a1.(cookie := b1.cookie), n3);
            var latest := Max(Max(a.lastActivityTime, b.lastActivityTime), c);
            && a2.lastActivityTime == latest
            && b1.lastActivityTime == latest
            && a2.cookie == Some(latest)
  {
    var a1 := Update(a, n1);
    UpdateSync(a, c, n1);
    var b1 := Update(b.(cookie := a1.cookie), n2);
    UpdateSync(b.(cookie := a1.cookie), a1.lastActivityTime, n2);
    UpdateSync(a1.(cookie := b1.cookie), b1.lastActivityTime, n3);
  }

  // ---------------------------------------------------------------- enable / disable

  /**
   * `enable` schedules the countdown at `idleMilliseconds - countdownSeconds * 1000`,
   * the logout at `idleMilliseconds` and the update at `updateMilliseconds`, so the
   * countdown starts `countdownSeconds` before logout; the logout time is
   * `lastActivityTime + idleMilliseconds / 1000`; `countdownTimeoutPointer` is untouched.
   */
  lemma EnableSchedules(s: State)
    requires WholeSeconds(s.settings)
    ensures var r := Enable(s);
            && r.updateTimeoutPointer == Some(s.settings.updateMilliseconds)
            && r.logoutCountdownPointer == Some(s.settings.idleMilliseconds - s.settings.countdownSeconds * 1000)
            && r.logoutTimeoutPointer == Some(s.settings.idleMilliseconds)
            && r.logoutTimeoutPointer.value - r.logoutCountdownPointer.value == s.settings.countdownSeconds * 1000
            && r.logoutTime == Some(s.lastActivityTime + s.settings.idleMilliseconds / 1000)
            && (r.logoutTime.value - s.lastActivityTime) * 1000 == s.settings.idleMilliseconds
            && r.countdownTimeoutPointer == s.countdownTimeoutPointer
            && r.lastActivityTime == s.lastActivityTime && r.cookie == s.cookie
  {
  }

  /**
   * `disable` leaves no timeout pending and no logout time, and keeps the last activity
   * time, the settings, the cookie, the dialog and the countdown interval.
   */
  lemma DisableEffect(s: State)
    ensures var r := Disable(s);
            && !Pending(r, UpdateTimeout) && !Pending(r, LogoutTimeout) && !Pending(r, CountdownTimeout)
            && r.logoutTime.None?
            && r.lastActivityTime == s.lastActivityTime && r.settings == s.settings
            && r.cookie == s.cookie && r.dialogOpen == s.dialogOpen
            && r.countdownIntervalPointer == s.countdownIntervalPointer
  {
  }

  /** After `disable` a tick of a still-running countdown interval writes nothing. */
  lemma TickAfterDisable(s: State, now: int)
    ensures Tick(Disable(s), now) == Disable(s)
  {
  }

  /** `enable` after `disable` schedules exactly what `enable` alone would. */
  lemma EnableAfterDisable(s: State)
    requires WholeSeconds(s.settings)
    ensures Enable(Disable(s)) == Enable(s)
  {
  }

  // ---------------------------------------------------------------- countdown

  /** The displayed countdown is never negative, and a tick changes only the display. */
  lemma TickEffect(s: State, now: int)
    ensures var r := Tick(s, now);
            && (s.logoutTime.Some? && s.logoutTime.value != 0 ==>
                  r.timerText.Some? && r.timerText.value >= 0
                  && r.timerText.value >= s.logoutTime.value - now)
            && (s.logoutTime.None? || s.logoutTime == Some(0) ==> r == s)
            && r.(timerText := s.timerText) == s
  {
  }

  /** `cancelCountdown` closes the dialog and stops the tick; repeating it changes nothing. */
  lemma CancelCountdownIdempotent(s: State)
    ensures !CancelCountdown(s).dialogOpen && !Pending(CancelCountdown(s), CountdownInterval)
    ensures CancelCountdown(CancelCountdown(s)) == CancelCountdown(s)
  {
  }

  // ---------------------------------------------------------------- units as written

  /**
   * For the same activity at time `t >= 0`, `enable` and `resetFromTime` disagree on the
   * logout time: the first adds seconds to milliseconds, the second multiplies
   * milliseconds by 1000.
   */
  lemma LogoutTimeUnitsDisagree(s: State, t: int)
    requires WholeSeconds(s.settings) && s.settings.idleMilliseconds > 0
    requires s.lastActivityTime == t && t >= 0
    ensures Enable(s).logoutTime != ResetFromTime(s, t, t).logoutTime
  {
    assert Enable(s).logoutTime.value < ResetFromTime(s, t, t).logoutTime.value;
  }

  /**
   * With the default settings and activity at time 0, the countdown timeout is 1170000
   * and the logout timeout 1200000, but the logout time is 1200, so a tick at 1175000
   * shows 0 rather than the 25 seconds that remain.
   */
  lemma DefaultCountdownShowsZero(s: State)
    requires s.settings == Defaults(s.settings.cookieDomain) && s.lastActivityTime == 0
    ensures Enable(s).logoutCountdownPointer == Some(1170000)
    ensures Enable(s).logoutTimeoutPointer == Some(1200000)
    ensures Enable(s).updateTimeoutPointer == Some(100)
    ensures Enable(s).logoutTime == Some(1200)
    ensures Tick(Enable(s), 1175000).timerText == Some(0)
  {
  }

  // ---------------------------------------------------------------- init

  /**
   * `$.extend` writes into `defaults`: a later `init` without options runs with the
   * settings of the earlier one, not with the original defaults.
   */
  lemma ReinitKeepsOptions(s: State, o: Options, now1: int, now2: int)
    requires Allowed(s, InitStep(o))
    ensures Allowed(Init(s, o, now1), InitStep(NoOptions))
    ensures Init(Init(s, o, now1), NoOptions, now2).settings == Merge(s.defaults, o)
  {
  }

  /** With a `{countdown}` in the message, the dialog text holds the timer element. */
  lemma InitRendersTimer(s: State, o: Options, now: int)
    requires Allowed(s, InitStep(o))
    ensures var r := Init(s, o, now);
            r.hasTimer ==> MatchAt(r.message, TimerSpan, IndexOf(r.settings.countdownMessage, Placeholder).value)
    ensures var r := Init(s, o, now);
            !r.hasTimer ==> r.message == r.settings.countdownMessage
  {
    var st := Merge(s.defaults, o);
    if IndexOf(st.countdownMessage, Placeholder).Some? {
      ReplaceFirstInserts(st.countdownMessage, Placeholder, TimerSpan);
    }
  }

  // ---------------------------------------------------------------- invariant

  /**
   * What holds of every reachable state: before `init` nothing is scheduled; after it,
   * `settings` is `defaults`, `countdownTimeoutPointer` is never set, the dialog text
   * and timer flag match the message, the pending update timeout, countdown timeout and
   * tick interval have the delays their schedulers give them, and a pending logout
   * timeout comes with a logout time.
   */
  predicate Inv(s: State) {
    && (!s.initialized ==>
          s.updateTimeoutPointer.None? && s.logoutTimeoutPointer.None? && s.logoutTime.None?
          && s.countdownTimeoutPointer.None? && s.logoutCountdownPointer.None?
          && s.countdownIntervalPointer.None?)
    && (s.initialized ==>
          && s.settings == s.defaults
          && s.countdownTimeoutPointer.None?
          && s.hasTimer == HasTimer(s.settings.countdownMessage)
          && s.message == DialogText(s.settings.countdownMessage)
          && (s.updateTimeoutPointer.Some? ==> s.updateTimeoutPointer.value == s.settings.updateMilliseconds)
          && (s.logoutCountdownPointer.Some? ==> s.logoutCountdownPointer.value == CountdownDelay(s.settings))
          && (s.countdownIntervalPointer.Some? ==> s.hasTimer && s.countdownIntervalPointer.value == TickMilliseconds)
          && (s.logoutTimeoutPointer.Some? ==> s.logoutTime.Some?))
  }

  lemma InitialInv(hostname: string, cookie: Option<int>)
    ensures Inv(Initial(hostname, cookie))
  {
  }

  lemma NextPreservesInv(s: State, step: Step, now: int)
    requires Inv(s) && Allowed(s, step)
    ensures Inv(Next(s, step, now))
  {
    match step
    case FireStep(t) => {
      match t
      case UpdateTimeout =>
        assert Update(s.(updateTimeoutPointer := None), now).settings == s.settings;
      case _ =>
    }
    case UpdateStep =>
      assert Update(s, now).settings == s.settings;
    case _ =>
  }

  /**
   * The cookie never goes back: no step of this page lowers it. Only another tab's
   * write, `CookieWritten`, can set it to anything.
   */
  lemma CookieNeverDecreases(s: State, step: Step, now: int)
    requires Allowed(s, step) && !step.CookieWritten?
    requires s.cookie.Some?
    ensures Next(s, step, now).cookie.Some?
    ensures Next(s, step, now).cookie.value >= s.cookie.value
  {
    match step
    case UpdateStep => UpdateSync(s, s.cookie.value, now);
    case FireStep(UpdateTimeout) =>
      UpdateSync(s.(updateTimeoutPointer := None), s.cookie.value, now);
    case _ =>
  }

  /** Once the page has navigated to the logout URL, no step of this page changes that. */
  lemma LocationSticks(s: State, step: Step, now: int)
    requires Allowed(s, step) && s.location.Some?
    ensures Next(s, step, now).location.Some?
  {
  }
}

/**
 * Runs of many steps: a page's plugin taking one step after another, each at its own time.
 */
module IdleRuns {
  import opened Wrappers
  import opened IdleState
  import opened IdleProperties

  datatype Event = Event(step: Step, now: int)

  /** Every step of `run` is allowed in the state the steps before it lead to. */
  predicate Runs(s: State, run: seq<Event>)
    decreases |run|
  {
    run == [] || (Allowed(s, run[0].step) && Runs(Next(s, run[0].step, run[0].now), run[1..]))
  }

  /** The state a run ends in. */
  function After(s: State, run: seq<Event>): State
    requires Runs(s, run)
    decreases |run|
  {
    if run == [] then s else After(Next(s, run[0].step, run[0].now), run[1..])
  }

  /** No other tab writes the cookie during `run`. */
  predicate Alone(run: seq<Event>) {
    forall k :: 0 <= k < |run| ==> !run[k].step.CookieWritten?
  }

  /** The invariant holds after any run from a state that satisfies it. */
  lemma {:induction false} RunsPreserveInv(s: State, run: seq<Event>)
    requires Inv(s) && Runs(s, run)
    ensures Inv(After(s, run))
    decreases |run|
  {
    if run != [] {
      NextPreservesInv(s, run[0].step, run[0].now);
      RunsPreserveInv(Next(s, run[0].step, run[0].now), run[1..]);
    }
  }

  /** Every state reachable from the start satisfies the invariant. */
  lemma ReachableInv(hostname: string, cookie: Option<int>, run: seq<Event>)
    requires Runs(Initial(hostname, cookie), run)
    ensures Inv(After(Initial(hostname, cookie), run))
  {
    InitialInv(hostname, cookie);
    RunsPreserveInv(Initial(hostname, cookie), run);
  }

  /** While no other tab writes it, the cookie never goes back over a whole run. */
  lemma {:induction false} RunsNeverLowerCookie(s: State, run: seq<Event>)
    requires Runs(s, run) && Alone(run) && s.cookie.Some?
    ensures After(s, run).cookie.Some? && After(s, run).cookie.value >= s.cookie.value
    decreases |run|
  {
    if run != [] {
      var s' := Next(s, run[0].step, run[0].now);
      CookieNeverDecreases(s, run[0].step, run[0].now);
      assert Alone(run[1..]) by {
        forall k | 0 <= k < |run[1..]| ensures !run[1..][k].step.CookieWritten? {
          assert run[1..][k] == run[k + 1];
        }
      }
      RunsNeverLowerCookie(s', run[1..]);
    }
  }

  /** Once logged out, the page stays at the logout location over any further run. */
  lemma {:induction false} RunsKeepLocation(s: State, run: seq<Event>)
    requires Runs(s, run) && s.location.Some?
    ensures After(s, run).location.Some?
    decreases |run|
  {
    if run != [] {
      LocationSticks(s, run[0].step, run[0].now);
      RunsKeepLocation(Next(s, run[0].step, run[0].now), run[1..]);
    }
  }

  /**
   * Once `init` has run, `countdownTimeoutPointer` stays `null` over any run: the
   * countdown timeout is only ever stored under `logoutCountdownPointer`.
   */
  lemma CountdownTimeoutPointerNeverSet(hostname: string, cookie: Option<int>, run: seq<Event>)
    requires Runs(Initial(hostname, cookie), run)
    ensures After(Initial(hostname, cookie), run).countdownTimeoutPointer.None?
  {
    ReachableInv(hostname, cookie, run);
  }
}
