/**
 * The plugin's state and one transition function per plugin method.
 *
 * `State` gathers everything the plugin's closure holds: the `defaults` object, whether
 * `init` has created the `data` record yet, that record's fields, and the two pieces of
 * the outside world the plugin writes: the shared cookie `idleLogout-lastActivityTime`
 * and the page location. Times are integers; `now` stands for `new Date().getTime()`.
 *
 * A timer field holds the delay of the timeout that is pending, or `None` when there
 * is none (never set, cleared, or already fired). The dialog is the flag `dialogOpen`
 * and the text of its countdown element is `timerText`.
 *
 * The arithmetic is as written in the source, units included: `enable` adds
 * `idleMilliseconds / 1000` to a millisecond timestamp, while `resetFromTime` and the
 * idle check in `update` multiply millisecond timestamps by 1000.
 */
module IdleState {
  import opened Wrappers
  import opened Config
  import opened Js
  import opened Template

  datatype State = State(
    defaults: Settings,
    initialized: bool,
    settings: Settings,
    message: string,
    hasTimer: bool,
    updateTimeoutPointer: Option<int>,
    logoutTimeoutPointer: Option<int>,
    logoutTime: Option<int>,
    countdownTimeoutPointer: Option<int>,
    logoutCountdownPointer: Option<int>,
    countdownIntervalPointer: Option<int>,
    dialogOpen: bool,
    timerText: Option<int>,
    lastActivityTime: int,
    cookie: Option<int>,
    location: Option<string>)

  /** The period of the countdown tick, `setInterval(..., 1000)`. */
  const TickMilliseconds: int := 1000

  /** The delay `enable` gives the countdown timeout. */
  function CountdownDelay(st: Settings): int {
    st.idleMilliseconds - st.countdownSeconds * 1000
  }

  /** `enable` divides `idleMilliseconds` by 1000; only whole seconds keep that an integer. */
  predicate WholeSeconds(st: Settings) {
    st.idleMilliseconds % 1000 == 0
  }

  /** The closure before any `init`: `defaults` as written, no `data`, no timers. */
  function Initial(hostname: string, cookie: Option<int>): State {
    State(Defaults(hostname), false, Defaults(hostname), "", false,
          None, None, None, None, None, None, false, None, 0, cookie, None)
  }

  // ---------------------------------------------------------------- init

  /**
   * `init(options)`: `$.extend(defaults, options)` writes the options into `defaults`
   * itself and returns it, so `settings` and `defaults` are then the same object; the
   * dialog text is the message with its first `{countdown}` replaced by the timer
   * element; a new `data` record starts with no timers and the last activity at `now`;
   * with `autostart`, `enable` follows.
   */
  function Init(s: State, o: Options, now: int): (r: State)
    requires Merge(s.defaults, o).autostart ==> WholeSeconds(Merge(s.defaults, o))
    ensures r.initialized && r.settings == r.defaults == Merge(s.defaults, o)
    ensures r.lastActivityTime == now && !r.dialogOpen && r.timerText.None?
    ensures r.cookie == s.cookie && r.location == s.location
    ensures r.countdownTimeoutPointer.None? && r.countdownIntervalPointer.None?
    ensures r.settings.autostart <==> r.updateTimeoutPointer.Some?
    ensures r.settings.autostart <==> r.logoutTimeoutPointer.Some? && r.logoutCountdownPointer.Some?
  {
    var started := Created(s, o, now);
    if started.settings.autostart then Enable(started) else started
  }

  /** The dialog's text: the message with its first `{countdown}` made the timer element. */
  function DialogText(countdownMessage: string): string {
    ReplaceFirst(countdownMessage, Placeholder, TimerSpan)
  }

  /** Whether the dialog has a timer element: the message holds a `{countdown}`. */
  predicate HasTimer(countdownMessage: string) {
    IndexOf(countdownMessage, Placeholder).Some?
  }

  /** The state `init` leaves before it (maybe) calls `enable`. */
  function Created(s: State, o: Options, now: int): (r: State)
    ensures r.initialized && r.settings == r.defaults == Merge(s.defaults, o)
    ensures r.hasTimer <==> IndexOf(r.settings.countdownMessage, Placeholder).Some?
    ensures !r.hasTimer ==> r.message == r.settings.countdownMessage
    ensures r.lastActivityTime == now && !r.dialogOpen && r.timerText.None? && r.logoutTime.None?
    ensures r.updateTimeoutPointer.None? && r.logoutTimeoutPointer.None?
    ensures r.countdownTimeoutPointer.None? && r.logoutCountdownPointer.None?
    ensures r.countdownIntervalPointer.None?
    ensures r.cookie == s.cookie && r.location == s.location
  {
    var st := Merge(s.defaults, o);
    State(st, true, st, DialogText(st.countdownMessage), HasTimer(st.countdownMessage),
          None, None, None, None, None, None, false, None, now, s.cookie, s.location)
  }

  // ---------------------------------------------------------------- enable / disable

  /**
   * `enable`: schedules the update, the countdown and the logout timeouts and sets the
   * logout time (to `lastActivityTime + idleMilliseconds / 1000`, as written). It does
   * not clear timeouts that are already pending. The countdown handle is stored under
   * `logoutCountdownPointer`, not the `countdownTimeoutPointer` that `init` declares.
   */
  function Enable(s: State): (r: State)
    requires WholeSeconds(s.settings)
    ensures r.updateTimeoutPointer.Some? && r.logoutTimeoutPointer.Some?
    ensures r.logoutCountdownPointer.Some? && r.logoutTime.Some?
    ensures r.logoutTimeoutPointer.value - r.logoutCountdownPointer.value == s.settings.countdownSeconds * 1000
    ensures r.logoutTime.value * 1000 == s.lastActivityTime * 1000 + r.logoutTimeoutPointer.value
    ensures r.(updateTimeoutPointer := s.updateTimeoutPointer, logoutCountdownPointer := s.logoutCountdownPointer,
               logoutTime := s.logoutTime, logoutTimeoutPointer := s.logoutTimeoutPointer) == s
  {
    s.(
      updateTimeoutPointer := Some(s.settings.updateMilliseconds),
      logoutCountdownPointer := Some(CountdownDelay(s.settings)),
      logoutTime := Some(s.lastActivityTime + s.settings.idleMilliseconds / 1000),
      logoutTimeoutPointer := Some(s.settings.idleMilliseconds))
  }

  /**
   * `disable`: clears the update, countdown and logout timeouts and the logout time.
   * The countdown interval and the dialog are left as they are.
   */
  function Disable(s: State): (r: State)
    ensures !Pending(r, UpdateTimeout) && !Pending(r, LogoutTimeout) && !Pending(r, CountdownTimeout)
    ensures r.logoutTime.None? && Pending(r, CountdownInterval) == Pending(s, CountdownInterval)
    ensures r.(updateTimeoutPointer := s.updateTimeoutPointer, logoutCountdownPointer := s.logoutCountdownPointer,
               logoutTime := s.logoutTime, logoutTimeoutPointer := s.logoutTimeoutPointer) == s
  {
    s.(
      updateTimeoutPointer := None,
      logoutCountdownPointer := None,
      logoutTime := None,
      logoutTimeoutPointer := None)
  }

  // ---------------------------------------------------------------- activity

  /**
   * `e && e.timestamp || new Date().getTime()`: the event's `timestamp` when the event
   * is truthy and its timestamp is present and non-zero, `now` otherwise.
   */
  function ActivityTimestamp(e: Value, now: int): (t: int)
    ensures t == now || (e.Obj? && e.timestamp == Some(t) && t != 0)
    ensures e.Obj? && e.timestamp.Some? && e.timestamp.value != 0 ==> t == e.timestamp.value
  {
    if e.Obj? && e.timestamp.Some? && e.timestamp.value != 0 then e.timestamp.value else now
  }

  /** `handleActivity(e)`: record the activity time, then `resetFromTime` from it. */
  function HandleActivity(s: State, e: Value, now: int): (r: State)
    ensures r.lastActivityTime == ActivityTimestamp(e, now)
    ensures r.logoutTimeoutPointer.Some? && r.logoutTime.Some?
    ensures r.logoutTime.value == now * 1000 + r.logoutTimeoutPointer.value
    ensures r.lastActivityTime == now ==> r.logoutTimeoutPointer.value == s.settings.idleMilliseconds
    ensures r.(lastActivityTime := s.lastActivityTime, logoutTimeoutPointer := s.logoutTimeoutPointer,
               logoutTime := s.logoutTime) == s
  {
    var t := ActivityTimestamp(e, now);
    ResetFromTime(s.(lastActivityTime := t), t, now)
  }

  /** The logout delay `resetFromTime(t)` computes: `idleMilliseconds - (now - t) * 1000`. */
  function LogoutDelay(st: Settings, t: int, now: int): int {
    st.idleMilliseconds - (now - t) * 1000
  }

  /**
   * `resetFromTime(t)`: clears the logout timeout, sets the logout time to
   * `now * 1000 + delay` and schedules a new logout timeout with that delay.
   */
  function ResetFromTime(s: State, t: int, now: int): (r: State)
    ensures r.logoutTimeoutPointer.Some? && r.logoutTime.Some?
    ensures r.logoutTime.value == now * 1000 + r.logoutTimeoutPointer.value
    ensures r.logoutTimeoutPointer.value + (now - t) * 1000 == s.settings.idleMilliseconds
    ensures r.(logoutTimeoutPointer := s.logoutTimeoutPointer, logoutTime := s.logoutTime) == s
  {
    var delay := LogoutDelay(s.settings, t, now);
    s.(logoutTimeoutPointer := Some(delay), logoutTime := Some(now * 1000 + delay))
  }

  // ---------------------------------------------------------------- update

  /** The cookie as `update` compares it: an absent cookie reads as `null`, i.e. 0. */
  function CookieTime(c: Option<int>): (r: int)
    ensures c.None? ==> r == 0
    ensures c.Some? ==> r == c.value
  {
    c.GetOr(0)
  }

  function Max(a: int, b: int): int {
    if a >= b then a else b
  }

  /**
   * `update`: a local time ahead of the cookie is written to the cookie; a cookie ahead
   * of the local time is adopted and the logout rescheduled from it; then the next
   * update is scheduled. The idle check only logs, see `IdleExceeded`.
   */
  function Update(s: State, now: int): (r: State)
    ensures r.lastActivityTime == Max(s.lastActivityTime, CookieTime(s.cookie))
    ensures s.cookie.Some? || s.lastActivityTime > 0 ==> r.cookie == Some(r.lastActivityTime)
    ensures s.lastActivityTime <= CookieTime(s.cookie) ==> r.cookie == s.cookie
    ensures r.updateTimeoutPointer == Some(s.settings.updateMilliseconds)
    ensures s.lastActivityTime < CookieTime(s.cookie) ==>
              r.logoutTimeoutPointer == Some(LogoutDelay(s.settings, r.lastActivityTime, now)) &&
              r.logoutTime == Some(now * 1000 + LogoutDelay(s.settings, r.lastActivityTime, now))
    ensures s.lastActivityTime >= CookieTime(s.cookie) ==>
              r.logoutTimeoutPointer == s.logoutTimeoutPointer && r.logoutTime == s.logoutTime
    ensures r.(lastActivityTime := s.lastActivityTime, cookie := s.cookie,
               updateTimeoutPointer := s.updateTimeoutPointer,
               logoutTimeoutPointer := s.logoutTimeoutPointer, logoutTime := s.logoutTime) == s
  {
    var c := CookieTime(s.cookie);
    var synced :=
      if s.lastActivityTime > c then s.(cookie := Some(s.lastActivityTime))
      else if s.lastActivityTime < c then ResetFromTime(s.(lastActivityTime := c), c, now)
      else s;
    synced.(updateTimeoutPointer := Some(s.settings.updateMilliseconds))
  }

  /**
   * The check `update` logs: `now - lastActivityTime * 1000 > idleMilliseconds`. It
   * multiplies a millisecond timestamp by 1000, so it never holds while `now` is at most
   * a thousand times the last activity time, which is the case for every real timestamp.
   */
  predicate IdleExceeded(s: State, now: int): (r: bool)
    ensures s.settings.idleMilliseconds >= 0 && now <= s.lastActivityTime * 1000 ==> !r
  {
    now - s.lastActivityTime * 1000 > s.settings.idleMilliseconds
  }

  // ---------------------------------------------------------------- logout and countdown

  /** `logout`: navigate to `logoutUrl`. */
  function Logout(s: State): (r: State)
    ensures r.location == Some(s.settings.logoutUrl)
    ensures r.(location := s.location) == s
  {
    s.(location := Some(s.settings.logoutUrl))
  }

  /** `startCountdown`: open the dialog; if it has a timer element, start the tick. */
  function StartCountdown(s: State): (r: State)
    ensures r.dialogOpen
    ensures Pending(r, CountdownInterval) <==> s.hasTimer || Pending(s, CountdownInterval)
    ensures s.hasTimer ==> r.countdownIntervalPointer == Some(TickMilliseconds)
    ensures r.(dialogOpen := s.dialogOpen, countdownIntervalPointer := s.countdownIntervalPointer) == s
  {
    s.(dialogOpen := true,
       countdownIntervalPointer := if s.hasTimer then Some(TickMilliseconds) else s.countdownIntervalPointer)
  }

  /**
   * What one tick writes into the timer element: nothing while the logout time is
   * falsy (`null` or 0), otherwise `Math.max(0, logoutTime - now)`.
   */
  function TickDisplay(logoutTime: Option<int>, now: int): (r: Option<int>)
    ensures r.Some? <==> logoutTime.Some? && logoutTime.value != 0
    ensures r.Some? ==> r.value >= 0 && r.value >= logoutTime.value - now
    ensures r.Some? ==> r.value == 0 || r.value == logoutTime.value - now
  {
    match logoutTime
    case None => None
    case Some(t) => if t == 0 then None else Some(Max(0, t - now))
  }

  /** The tick callback of the countdown interval. */
  function Tick(s: State, now: int): (r: State)
    ensures TickDisplay(s.logoutTime, now).Some? ==> r.timerText == TickDisplay(s.logoutTime, now)
    ensures TickDisplay(s.logoutTime, now).None? ==> r == s
    ensures r.(timerText := s.timerText) == s
  {
    match TickDisplay(s.logoutTime, now)
    case None => s
    case Some(v) => s.(timerText := Some(v))
  }

  /**
   * `cancelCountdown`: close the dialog and clear the tick interval. Closing an open
   * dialog runs its `close` handler, which calls `cancelCountdown` once more; by
   * `CancelCountdownIdempotent` that nested call changes nothing further.
   */
  function CancelCountdown(s: State): (r: State)
    ensures !r.dialogOpen && !Pending(r, CountdownInterval)
    ensures r.(dialogOpen := s.dialogOpen, countdownIntervalPointer := s.countdownIntervalPointer) == s
  {
    s.(dialogOpen := false, countdownIntervalPointer := None)
  }

  // ---------------------------------------------------------------- timers firing

  datatype Timer = UpdateTimeout | LogoutTimeout | CountdownTimeout | CountdownInterval

  predicate Pending(s: State, t: Timer) {
    match t
    case UpdateTimeout => s.updateTimeoutPointer.Some?
    case LogoutTimeout => s.logoutTimeoutPointer.Some?
    case CountdownTimeout => s.logoutCountdownPointer.Some?
    case CountdownInterval => s.countdownIntervalPointer.Some?
  }

  /**
   * A pending timer fires: a timeout stops being pending and runs its callback
   * (`doUpdate`, `doLogout`, `doStartCountdown`); the interval stays pending and ticks.
   */
  function Fire(s: State, t: Timer, now: int): (r: State)
    requires Pending(s, t)
    ensures t.LogoutTimeout? ==> !Pending(r, t) && r.location == Some(s.settings.logoutUrl)
    ensures t.CountdownTimeout? ==> !Pending(r, t) && r.dialogOpen
    ensures t.UpdateTimeout? ==> r.updateTimeoutPointer == Some(s.settings.updateMilliseconds)
    ensures t.CountdownInterval? ==> Pending(r, t)
    ensures r.settings == s.settings && r.defaults == s.defaults && r.initialized == s.initialized
  {
    match t
    case UpdateTimeout => Update(s.(updateTimeoutPointer := None), now)
    case LogoutTimeout => Logout(s.(logoutTimeoutPointer := None))
    case CountdownTimeout => StartCountdown(s.(logoutCountdownPointer := None))
    case CountdownInterval => Tick(s, now)
  }

  // ---------------------------------------------------------------- all steps

  /**
   * Everything that can happen to one page's plugin: a plugin method, a timer firing,
   * or another tab writing the shared cookie between two of these.
   */
  datatype Step =
    | InitStep(options: Options)
    | EnableStep
    | DisableStep
    | HandleActivityStep(e: Value)
    | UpdateStep
    | ResetFromTimeStep(timestamp: int)
    | LogoutStep
    | StartCountdownStep
    | CancelCountdownStep
    | FireStep(timer: Timer)
    | CookieWritten(value: int)

  /**
   * When a step can be taken: every method but `init` needs the `data` record that
   * `init` creates, and the integer model of `enable` needs whole seconds.
   */
  predicate Allowed(s: State, step: Step) {
    match step
    case InitStep(o) => Merge(s.defaults, o).autostart ==> WholeSeconds(Merge(s.defaults, o))
    case EnableStep => s.initialized && WholeSeconds(s.settings)
    case FireStep(t) => s.initialized && Pending(s, t)
    case CookieWritten(_) => true
    case _ => s.initialized
  }

  function Next(s: State, step: Step, now: int): (r: State)
    requires Allowed(s, step)
    ensures r.initialized <==> s.initialized || step.InitStep?
    ensures !step.InitStep? ==> r.settings == s.settings && r.defaults == s.defaults
    ensures step.CookieWritten? ==> r == s.(cookie := Some(step.value))
  {
    match step
    case InitStep(o) => Init(s, o, now)
    case EnableStep => Enable(s)
    case DisableStep => Disable(s)
    case HandleActivityStep(e) => HandleActivity(s, e, now)
    case UpdateStep => Update(s, now)
    case ResetFromTimeStep(t) => ResetFromTime(s, t, now)
    case LogoutStep => Logout(s)
    case StartCountdownStep => StartCountdown(s)
    case CancelCountdownStep => CancelCountdown(s)
    case FireStep(t) => Fire(s, t, now)
    case CookieWritten(v) => s.(cookie := Some(v))
  }
}
