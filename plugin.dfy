/**
 * The plugin as the page runs it: one object holding the closure's `defaults`, the
 * fields of the `data` record, and the cookie and location it writes. Every method
 * updates those fields in the order the source does, and its postcondition ties the
 * new state to the matching transition of `IdleState`, whose properties are proved in
 * `IdleProperties`.
 */
module IdleLogout {
  import opened Wrappers
  import opened Config
  import opened Js
  import opened Template
  import opened Entry
  import S = IdleState

  /** The step `methods[name](arg)` takes. */
  function StepFor(name: string, arg: Value): S.Step
    requires name in MethodNames
    requires name == "resetFromTime" ==> arg.Number?
  {
    match name
    case "init" => S.InitStep(OptionsOf(arg))
    case "enable" => S.EnableStep
    case "disable" => S.DisableStep
    case "handleActivity" => S.HandleActivityStep(arg)
    case "update" => S.UpdateStep
    case "resetFromTime" => S.ResetFromTimeStep(arg.n)
    case "logout" => S.LogoutStep
    case "startCountdown" => S.StartCountdownStep
    case "cancelCountdown" => S.CancelCountdownStep
  }

  /**
   * What the call `$.idleLogout(m, arg)` may be made on: `resetFromTime` is given a
   * number, and the step it runs is allowed in state `s`.
   */
  predicate CallAllowed(s: S.State, m: Value, arg: Value) {
    match Dispatch(m)
    case Invoke(name) =>
      (name == "resetFromTime" ==> arg.Number?) && S.Allowed(s, StepFor(name, arg))
    case InitWith(v) => S.Allowed(s, S.InitStep(OptionsOf(v)))
    case Fail(_) => true
  }

  class Plugin {
    var defaults: Settings
    var initialized: bool
    var settings: Settings
    var message: string
    var hasTimer: bool
    var updateTimeoutPointer: Option<int>
    var logoutTimeoutPointer: Option<int>
    var logoutTime: Option<int>
    var countdownTimeoutPointer: Option<int>
    var logoutCountdownPointer: Option<int>
    var countdownIntervalPointer: Option<int>
    var dialogOpen: bool
    var timerText: Option<int>
    var lastActivityTime: int
    var cookie: Option<int>
    var location: Option<string>

    /** The abstract state these fields stand for. */
    function Model(): S.State
      reads this
    {
      S.State(defaults, initialized, settings, message, hasTimer,
              updateTimeoutPointer, logoutTimeoutPointer, logoutTime,
              countdownTimeoutPointer, logoutCountdownPointer, countdownIntervalPointer,
              dialogOpen, timerText, lastActivityTime, cookie, location)
    }

    /** The plugin script has run: `defaults` exist, `data` does not yet. */
    constructor (hostname: string, initialCookie: Option<int>)
      ensures Model() == S.Initial(hostname, initialCookie)
    {
      defaults := Defaults(hostname);
      initialized := false;
      settings := Defaults(hostname);
      message := "";
      hasTimer := false;
      updateTimeoutPointer := None;
      logoutTimeoutPointer := None;
      logoutTime := None;
      countdownTimeoutPointer := None;
      logoutCountdownPointer := None;
      countdownIntervalPointer := None;
      dialogOpen := false;
      timerText := None;
      lastActivityTime := 0;
      cookie := initialCookie;
      location := None;
    }

    method Init(options: Options, now: int)
      requires S.Allowed(Model(), S.InitStep(options))
      modifies this
      ensures Model() == S.Init(old(Model()), options, now)
    {
      CreateData(options, now);
      if settings.autostart {
        Enable();
      }
    }

    /**
     * The part of `init` before `enable`: extend `defaults` in place, render the dialog
     * text, and start a fresh `data` record.
     */
    method CreateData(options: Options, now: int)
      modifies this
      ensures Model() == S.Created(old(Model()), options, now)
    {
      ExtendDefaults(options);
      NewRecord(now);
    }

    /** `$.extend(defaults, options)` and the dialog built from the resulting message. */
    method ExtendDefaults(options: Options)
      modifies this
      ensures var st := Merge(old(defaults), options);
              Model() == old(Model()).(defaults := st, settings := st,
                                       message := S.DialogText(st.countdownMessage),
                                       hasTimer := S.HasTimer(st.countdownMessage))
    {
      var st := Merge(defaults, options);
      defaults := st;
      settings := st;
      message := S.DialogText(st.countdownMessage);
      hasTimer := S.HasTimer(st.countdownMessage);
    }

    /** The new `data` record: no timers, a closed dialog, the last activity at `now`. */
    method NewRecord(now: int)
      modifies this
      ensures initialized && !dialogOpen && timerText.None? && lastActivityTime == now
      ensures updateTimeoutPointer.None? && logoutTimeoutPointer.None? && logoutTime.None?
      ensures countdownTimeoutPointer.None? && logoutCountdownPointer.None? && countdownIntervalPointer.None?
      ensures unchanged(this`defaults, this`settings, this`message, this`hasTimer, this`cookie, this`location)
    {
      // `logoutCountdownPointer` is not declared in the record, so it starts `undefined`.
      initialized, updateTimeoutPointer, logoutTimeoutPointer, logoutTime,
        countdownTimeoutPointer, logoutCountdownPointer, countdownIntervalPointer,
        dialogOpen, timerText, lastActivityTime :=
        true, None, None, None, None, None, None, false, None, now;
    }

    method Enable()
      requires initialized && S.WholeSeconds(settings)
      modifies this
      ensures Model() == S.Enable(old(Model()))
    {
      var countdownMilliseconds := settings.idleMilliseconds - settings.countdownSeconds * 1000;
      updateTimeoutPointer := Some(settings.updateMilliseconds);
      logoutCountdownPointer := Some(countdownMilliseconds);
      logoutTime := Some(lastActivityTime + settings.idleMilliseconds / 1000);
      logoutTimeoutPointer := Some(settings.idleMilliseconds);
    }

    method Disable()
      requires initialized
      modifies this
      ensures Model() == S.Disable(old(Model()))
    {
      updateTimeoutPointer := None;
      logoutCountdownPointer := None;
      logoutTime := None;
      logoutTimeoutPointer := None;
    }

    method HandleActivity(e: Value, now: int)
      requires initialized
      modifies this
      ensures Model() == S.HandleActivity(old(Model()), e, now)
    {
      var timestamp := if e.Obj? && e.timestamp.Some? && e.timestamp.value != 0
                       then e.timestamp.value else now;
      lastActivityTime := timestamp;
      ResetFromTime(lastActivityTime, now);
    }

    /** Returns whether the idle check logged (it changes no state). */
    method Update(now: int) returns (idleExceeded: bool)
      requires initialized
      modifies this
      ensures Model() == S.Update(old(Model()), now)
      ensures idleExceeded == S.IdleExceeded(Model(), now)
    {
      var cookieTime := S.CookieTime(cookie);
      if lastActivityTime > cookieTime {
        cookie := Some(lastActivityTime);
      } else if lastActivityTime < cookieTime {
        lastActivityTime := cookieTime;
        ResetFromTime(lastActivityTime, now);
      }
      var idleTime := now - lastActivityTime * 1000;
      idleExceeded := idleTime > settings.idleMilliseconds;
      updateTimeoutPointer := Some(settings.updateMilliseconds);
    }

    method ResetFromTime(timestamp: int, now: int)
      requires initialized
      modifies this
      ensures Model() == S.ResetFromTime(old(Model()), timestamp, now)
    {
      var delay := settings.idleMilliseconds - (now - timestamp) * 1000;
      logoutTimeoutPointer := None;
      logoutTime := Some(now * 1000 + delay);
      logoutTimeoutPointer := Some(delay);
    }

    method Logout()
      requires initialized
      modifies this
      ensures Model() == S.Logout(old(Model()))
    {
      location := Some(settings.logoutUrl);
    }

    method StartCountdown()
      requires initialized
      modifies this
      ensures Model() == S.StartCountdown(old(Model()))
    {
      dialogOpen := true;
      if hasTimer {
        countdownIntervalPointer := Some(S.TickMilliseconds);
      }
    }

    /** The body of the countdown interval's callback. */
    method Tick(now: int)
      requires initialized
      modifies this
      ensures Model() == S.Tick(old(Model()), now)
    {
      if logoutTime.Some? && logoutTime.value != 0 {
        var remaining := logoutTime.value - now;
        timerText := Some(if remaining > 0 then remaining else 0);
      }
    }

    method CancelCountdown()
      requires initialized
      modifies this
      ensures Model() == S.CancelCountdown(old(Model()))
    {
      dialogOpen := false;
      countdownIntervalPointer := None;
    }

    /** A pending timer fires and runs its callback. */
    method Fire(t: S.Timer, now: int)
      requires initialized && S.Pending(Model(), t)
      modifies this
      ensures Model() == S.Fire(old(Model()), t, now)
    {
      match t
      case UpdateTimeout =>
        updateTimeoutPointer := None;
        var _ := Update(now);
      case LogoutTimeout =>
        logoutTimeoutPointer := None;
        Logout();
      case CountdownTimeout =>
        logoutCountdownPointer := None;
        StartCountdown();
      case CountdownInterval =>
        Tick(now);
    }

    /** Another tab writes the shared cookie. */
    method CookieWritten(value: int)
      modifies this
      ensures Model() == old(Model()).(cookie := Some(value))
    {
      cookie := Some(value);
    }

    method Perform(step: S.Step, now: int)
      requires S.Allowed(Model(), step)
      modifies this
      ensures Model() == S.Next(old(Model()), step, now)
    {
      match step
      case InitStep(o) => Init(o, now);
      case EnableStep => Enable();
      case DisableStep => Disable();
      case HandleActivityStep(e) => HandleActivity(e, now);
      case UpdateStep => var _ := Update(now);
      case ResetFromTimeStep(t) => ResetFromTime(t, now);
      case LogoutStep => Logout();
      case StartCountdownStep => StartCountdown();
      case CancelCountdownStep => CancelCountdown();
      case FireStep(t) => Fire(t, now);
      case CookieWritten(v) => CookieWritten(v);
    }

    /**
     * `$.idleLogout(m, arg)`: a method name runs that method with `arg`; an object or a
     * falsy `m` runs `init` with `m` as the options; anything else throws, changing nothing.
     */
    method Call(m: Value, arg: Value, now: int) returns (error: Option<string>)
      requires CallAllowed(Model(), m, arg)
      modifies this
      ensures Dispatch(m).Fail? ==> error == Some(Dispatch(m).message) && Model() == old(Model())
      ensures Dispatch(m).Invoke? ==>
                error == None && Model() == S.Next(old(Model()), StepFor(Dispatch(m).name, arg), now)
      ensures Dispatch(m).InitWith? ==>
                error == None && Model() == S.Init(old(Model()), OptionsOf(m), now)
    {
      match Dispatch(m)
      case Invoke(name) =>
        Perform(StepFor(name, arg), now);
        error := None;
      case InitWith(v) =>
        Init(OptionsOf(v), now);
        error := None;
      case Fail(msg) =>
        error := Some(msg);
    }
  }
}
