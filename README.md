# jQuery idleLogout, modelled in Dafny

`jquery.ui.idle-logout.js` is a jQuery plugin that logs a user out after a period of
inactivity and keeps that period in step across the tabs of one site through a shared
cookie, `idleLogout-lastActivityTime`. Under the DOM and timer plumbing, the plugin is
one mutable record, `data`, changed step by step by its methods:

- `init` merges the caller's options into `defaults` (`$.extend` writes into `defaults`
  itself), renders the countdown dialog text by replacing the first `{countdown}` with a
  timer element, creates a fresh `data` record and, with `autostart`, calls `enable`;
- `enable` schedules the update, countdown and logout timeouts and sets the logout time;
  `disable` clears those three timeouts and the logout time;
- `handleActivity` records the time of an activity (the event's `timestamp` when it is
  present and non-zero, else the current time) and reschedules the logout from it;
- `update` reconciles the local last-activity time with the cookie in both directions
  (the later one wins), reschedules the logout when it adopts the cookie, logs when the
  idle time is exceeded, and schedules the next update;
- `resetFromTime` replaces the logout timeout and recomputes the logout time;
- `startCountdown` opens the dialog and starts a one-second tick showing
  `max(0, logoutTime - now)`; `cancelCountdown` closes it and stops the tick;
  `logout` navigates to `logoutUrl`;
- `$.idleLogout(method, ...)` dispatches: a method name runs that method, an object or
  a falsy argument runs `init`, anything else throws.

The model keeps the arithmetic exactly as written, including where its units disagree:
`enable` sets the logout time to `lastActivityTime + idleMilliseconds / 1000`
(milliseconds plus seconds), while `resetFromTime` uses a delay of
`idleMilliseconds - (now - t) * 1000` and a logout time of `now * 1000 + delay`, and
`update`'s idle check computes `now - lastActivityTime * 1000`. `LogoutTimeUnitsDisagree`
and `DefaultCountdownShowsZero` state what this does: for the same activity the two
logout times differ, and with the default settings the tick shows 0 while 25 seconds of
the countdown remain. The countdown timeout is stored in `logoutCountdownPointer`, while
`init` declares `countdownTimeoutPointer`, which nothing ever sets; the invariant `Inv`
records this. Events delivered by jQuery carry their time as `timeStamp`, so the
`timestamp` the plugin reads is normally absent and `now` is used.

The plugin has no separate countdown or logged-out state. Its timers carry no deadline,
so a timer that has gone stale still runs its method when it fires. The countdown is not
shown in whole seconds, and activity still counts while the dialog is open.

Files, one module each:

- `wrappers.dfy` (`Wrappers`): `Option`.
- `config.dfy` (`Config`): settings, options, the defaults and `$.extend`.
- `js.dfy` (`Js`): the JavaScript values the entry point receives, truthiness, `typeof`
  and string conversion.
- `template.dfy` (`Template`): first-occurrence search and replace.
- `dispatch.dfy` (`Entry`): the `$.idleLogout` dispatcher.
- `idle_state.dfy` (`IdleState`): the state as a value and one transition function per
  method, timer firing and cookie write.
- `idle_properties.dfy` (`IdleProperties`, `IdleRuns`): the properties of those transitions, one step at a time and over whole runs of steps.
- `plugin.dfy` (`IdleLogout`): the class `Plugin`, whose fields are the record's fields
  and whose methods update them in the source's order, each proved to produce the
  matching `IdleState` transition.

Time is a parameter `now` (the value of `new Date().getTime()`). A timer field holds the
delay of the pending timeout, or `None` when none is pending. `clearTimeout` makes it
`None`, and so does the timer firing. The dialog is `dialogOpen`, the timer element's
text is `timerText`, the redirect is `location`, and the cookie is `cookie`.

## Model

| member | source | states |
|---|---|---|
| IdleLogout.Plugin.constructor | jquery.ui.idle-logout.js:12-40 | after the script runs, `defaults` are the written defaults (with the page's host name as `cookieDomain`) and there is no `data` record and no timer |
| IdleLogout.Plugin.Init | jquery.ui.idle-logout.js:71-108 | `init` merges options into `defaults`, renders the dialog text, starts a fresh record with the last activity at `now` and no timers, and runs `enable` when `autostart` is set |
| IdleLogout.Plugin.CreateData | jquery.ui.idle-logout.js:73-102 | the part of `init` before `enable`: merged settings, dialog text and fresh record |
| IdleLogout.Plugin.ExtendDefaults | jquery.ui.idle-logout.js:73-78 | `$.extend(defaults, options)` updates `defaults` in place and `settings` is that same object; the dialog text and timer flag come from its message |
| IdleLogout.Plugin.NewRecord | jquery.ui.idle-logout.js:92-102 | the new record: every timeout field (the undeclared `logoutCountdownPointer` included) and the logout time null, closed dialog, empty timer text, last activity at `now`; defaults, settings, dialog text, cookie and location kept |
| IdleLogout.Plugin.Enable | jquery.ui.idle-logout.js:112-128 | `enable` leaves the update, countdown and logout timeouts pending with their delays and sets the logout time; nothing else changes |
| IdleLogout.Plugin.Disable | jquery.ui.idle-logout.js:132-147 | `disable` clears the update, countdown and logout timeouts and the logout time; nothing else changes |
| IdleLogout.Plugin.HandleActivity | jquery.ui.idle-logout.js:153-161 | `handleActivity` sets the last activity time from the event or `now`, then runs `resetFromTime` from it |
| IdleLogout.Plugin.Update | jquery.ui.idle-logout.js:166-189 | `update` reconciles local time and cookie, reschedules the next update, and returns whether the idle check logs |
| IdleLogout.Plugin.ResetFromTime | jquery.ui.idle-logout.js:193-203 | `resetFromTime` replaces the logout timeout and the logout time; nothing else changes |
| IdleLogout.Plugin.Logout | jquery.ui.idle-logout.js:207-209 | `logout` sets the location to `logoutUrl` |
| IdleLogout.Plugin.StartCountdown | jquery.ui.idle-logout.js:213-225 | `startCountdown` opens the dialog and, when it has a timer element, starts the one-second tick |
| IdleLogout.Plugin.Tick | jquery.ui.idle-logout.js:219-223 | the tick writes `max(0, logoutTime - now)` into the timer text when the logout time is truthy |
| IdleLogout.Plugin.CancelCountdown | jquery.ui.idle-logout.js:228-231 | `cancelCountdown` closes the dialog and clears the tick interval |
| IdleLogout.Plugin.Fire | jquery.ui.idle-logout.js:47-64 | a pending timeout stops being pending and runs `update`, `logout` or `startCountdown`; the interval runs a tick |
| IdleLogout.Plugin.CookieWritten | jquery.ui.idle-logout.js:50-55 | another tab overwrites the shared cookie; nothing else changes |
| IdleLogout.Plugin.Perform | jquery.ui.idle-logout.js:67-232 | running any step has the effect of the matching `IdleState` transition |
| IdleLogout.Plugin.Call | jquery.ui.idle-logout.js:235-243 | `$.idleLogout(m, arg)` runs the dispatched method or `init`, or throws the error message and changes nothing |
| Config.Merge | jquery.ui.idle-logout.js:73 | `$.extend`: for each of the eight settings, a property the options have overrides the default and a missing one keeps the default; no options change nothing |
| Config.MergeIdempotent | jquery.ui.idle-logout.js:73 | extending twice with the same options equals extending once |
| Config.MergeTwice | jquery.ui.idle-logout.js:73 | two successive extensions equal one extension with the second options laid over the first |
| Config.Defaults | jquery.ui.idle-logout.js:16-37 | the defaults: `cookieDomain` is the host name, the message is the default one, `autostart` is on, the idle period is whole seconds, and 0 < update period < countdown length < idle period |
| Js.Truthy | jquery.ui.idle-logout.js:238 | a value is falsy exactly when it is `undefined`, `null`, `false`, `0` or `""` |
| Js.IsObject | jquery.ui.idle-logout.js:238 | `typeof v === 'object'` holds of exactly the truthy objects and of `null`, the one falsy value it admits |
| Js.Key | jquery.ui.idle-logout.js:236 | the property key `methods[m]` looks up: a string is its own key, a number its decimal text, an object `[object Object]`, `undefined` and `null` their names, and a boolean `"true"` or `"false"` |
| Js.IntToString | jquery.ui.idle-logout.js:241 | the text a number shows in the error message is its decimal notation: a leading `-` exactly when it is negative, then digits whose value is its magnitude, with no leading zero (`0` alone for zero) |
| Js.NatToString | jquery.ui.idle-logout.js:241 | a natural number's text is made of digits whose decimal value is the number, with no leading zero |
| Template.IndexFrom | jquery.ui.idle-logout.js:74 | the result is the first index from `from` at which the pattern occurs, or none when it occurs nowhere after `from` |
| Template.ReplaceFirst | jquery.ui.idle-logout.js:74 | a message without the pattern is returned unchanged; with it, the length changes by exactly one replacement |
| Template.ReplaceFirstShape | jquery.ui.idle-logout.js:74 | when the first occurrence is at `i`, the result is the text before `i`, the replacement, then the text after the occurrence |
| Template.ReplaceFirstInserts | jquery.ui.idle-logout.js:74 | the replacement stands where the first occurrence stood |
| Template.ReplaceFirstKeepsLater | jquery.ui.idle-logout.js:74 | any later occurrence of `{countdown}` survives, so only the first is replaced |
| Template.ReplaceFirstKeepsPrefix | jquery.ui.idle-logout.js:74 | text before the first occurrence is copied unchanged |
| Template.DefaultMessagePlaceholder | jquery.ui.idle-logout.js:23 | the default message holds `{countdown}` at index 44, so the default dialog has a timer element |
| Entry.Dispatch | jquery.ui.idle-logout.js:235-243 | a method name is invoked, and only then; an object, `null`, `undefined`, `false`, `0` or `""` runs `init` with that argument; everything else fails with `Method <m> does not exist on jQuery.idleLogout` |
| Entry.NumberNeverInvokes | jquery.ui.idle-logout.js:236 | no number names a method |
| IdleState.Init | jquery.ui.idle-logout.js:71-108 | after `init`, `settings` and `defaults` are the merged options, the last activity is `now`, the dialog is closed, cookie and location are kept, nothing of the countdown is pending, and the update, countdown and logout timeouts are pending exactly when `autostart` is set |
| IdleState.Created | jquery.ui.idle-logout.js:73-102 | the state `init` creates before `enable`: merged settings, a timer element exactly when the message holds `{countdown}` (the plain message otherwise), no timer pending, no logout time, last activity at `now` |
| IdleState.Enable | jquery.ui.idle-logout.js:112-128 | the update, countdown and logout timeouts are pending, the countdown fires `countdownSeconds` seconds before the logout, the logout time exceeds the last activity time by a thousandth of the logout delay (a millisecond time plus seconds), and nothing else changes |
| IdleState.Disable | jquery.ui.idle-logout.js:132-147 | no update, countdown or logout timeout is pending and there is no logout time; the tick interval and everything else are kept |
| IdleState.HandleActivity | jquery.ui.idle-logout.js:153-161 | the last activity is the activity timestamp; a logout timeout is pending and the logout time is `now * 1000` plus its delay; with no event timestamp the delay is the whole `idleMilliseconds`; nothing else changes |
| IdleState.ResetFromTime | jquery.ui.idle-logout.js:193-203 | a logout timeout is pending whose delay plus the elapsed time times 1000 is `idleMilliseconds`, the logout time is `now * 1000` plus that delay, and nothing else changes |
| IdleState.CookieTime | jquery.ui.idle-logout.js:169 | an absent cookie compares as 0, a present one as its value |
| IdleState.IdleExceeded | jquery.ui.idle-logout.js:181-184 | for a non-negative `idleMilliseconds`, the idle check never holds while `now` is at most 1000 times the last activity time, so it never fires for a real millisecond timestamp |
| IdleState.Logout | jquery.ui.idle-logout.js:207-209 | the location becomes `logoutUrl` and nothing else changes |
| IdleState.StartCountdown | jquery.ui.idle-logout.js:213-225 | the dialog is open; the tick is pending afterwards exactly when the dialog has a timer element or a tick was already pending, with a 1000 ms period when newly started; nothing else changes |
| IdleState.Tick | jquery.ui.idle-logout.js:219-223 | the timer text becomes the tick's display value when there is one, and otherwise nothing changes; only the timer text ever changes |
| IdleState.CancelCountdown | jquery.ui.idle-logout.js:228-231 | the dialog is closed, no tick is pending, and nothing else changes |
| IdleState.Fire | jquery.ui.idle-logout.js:47-64 | a fired logout timeout is no longer pending and has set the location; a fired countdown timeout has opened the dialog; a fired update has scheduled the next; the interval stays pending; settings never change |
| IdleState.Next | jquery.ui.idle-logout.js:67-243 | the record exists after a step exactly when it existed before or the step is `init`; only `init` changes the settings; another tab's cookie write changes only the cookie |
| IdleState.ActivityTimestamp | jquery.ui.idle-logout.js:156 | the activity time is the event's non-zero timestamp when there is one, and `now` otherwise |
| IdleState.Update | jquery.ui.idle-logout.js:166-189 | afterwards the local time is the later of local and cookie; the cookie then equals it; a cookie at or ahead of local is not written; the logout is rescheduled exactly when the cookie was ahead; the update timeout is pending with `updateMilliseconds`; no other field changes |
| IdleState.TickDisplay | jquery.ui.idle-logout.js:219-223 | a value is shown exactly when the logout time is non-null and non-zero; it is never negative, at least `logoutTime - now`, and either 0 or `logoutTime - now` |
| IdleProperties.HandleActivityEffect | jquery.ui.idle-logout.js:153-158 | `handleActivity` sets the last activity time and reschedules the logout with delay `idleMilliseconds - (now - t) * 1000` and logout time `now * 1000 + delay`; no other field changes |
| IdleProperties.HandleActivityNow | jquery.ui.idle-logout.js:156-158 | without a usable timestamp the activity time is `now` and the logout delay is the full `idleMilliseconds` |
| IdleProperties.HandleActivityIdempotent | jquery.ui.idle-logout.js:153-161 | handling the same activity twice at the same time is the same as handling it once |
| IdleProperties.ResetFromTimeEffect | jquery.ui.idle-logout.js:193-203 | exactly one logout timeout is pending with the computed delay, the logout time is `now * 1000 + delay`, and the other timers, last activity time and cookie are unchanged |
| IdleProperties.ResetFromTimeMonotone | jquery.ui.idle-logout.js:196-200 | a later activity time never gives an earlier logout time |
| IdleProperties.UpdateSync | jquery.ui.idle-logout.js:172-179 | with cookie `c`: local ahead writes the cookie and keeps local time and logout schedule; cookie ahead is adopted and the logout rescheduled from it; equal changes neither; afterwards local equals cookie and neither went back |
| IdleProperties.UpdateSettles | jquery.ui.idle-logout.js:166-189 | a second `update` with no other writer changes nothing |
| IdleProperties.CrossTabConvergence | jquery.ui.idle-logout.js:172-179 | two tabs sharing the cookie, updating in turn, both end with the latest activity time, and so does the cookie |
| IdleProperties.EnableSchedules | jquery.ui.idle-logout.js:112-127 | `enable` schedules the countdown at `idleMilliseconds - countdownSeconds * 1000`, logout at `idleMilliseconds` and update at `updateMilliseconds`, and sets the logout time to `lastActivityTime + idleMilliseconds / 1000`; `countdownTimeoutPointer` is untouched |
| IdleProperties.DisableEffect | jquery.ui.idle-logout.js:132-147 | after `disable` no timeout is pending and there is no logout time; last activity time, settings, cookie, dialog and interval are kept |
| IdleProperties.TickAfterDisable | jquery.ui.idle-logout.js:219-223 | a tick after `disable` writes nothing, because the logout time is null |
| IdleProperties.EnableAfterDisable | jquery.ui.idle-logout.js:112-147 | `enable` after `disable` schedules exactly what `enable` alone does |
| IdleProperties.TickEffect | jquery.ui.idle-logout.js:219-223 | the tick shows a non-negative value when the logout time is truthy, does nothing when it is null or 0, and changes nothing but the timer text |
| IdleProperties.CancelCountdownIdempotent | jquery.ui.idle-logout.js:228-231 | `cancelCountdown` leaves the dialog closed and no tick pending; the nested call from the dialog's close handler changes nothing further |
| IdleProperties.LogoutTimeUnitsDisagree | jquery.ui.idle-logout.js:123-200 | for an activity at `t >= 0`, `enable` and `resetFromTime` compute different logout times |
| IdleProperties.DefaultCountdownShowsZero | jquery.ui.idle-logout.js:112-127 | with the defaults and activity at 0, the countdown is due at 1170000 and logout at 1200000, the logout time is 1200, and a tick at 1175000 shows 0 |
| IdleProperties.ReinitKeepsOptions | jquery.ui.idle-logout.js:73 | because `$.extend` writes into `defaults`, a later `init` without options keeps the earlier init's options |
| IdleProperties.InitRendersTimer | jquery.ui.idle-logout.js:74-78 | with a `{countdown}` in the message the dialog text holds the timer element at that place; without one the text is the message itself |
| IdleProperties.InitialInv | jquery.ui.idle-logout.js:12-40 | the state before `init` satisfies the invariant |
| IdleProperties.NextPreservesInv | jquery.ui.idle-logout.js:67-232 | every step keeps the invariant: `settings` is `defaults`, `countdownTimeoutPointer` is never set, the dialog matches the message, the pending update timeout, countdown timeout and tick interval have the delays `update`, `enable` and `startCountdown` give them, and a pending logout timeout comes with a logout time |
| IdleProperties.CookieNeverDecreases | jquery.ui.idle-logout.js:172-179 | no step of this page lowers the cookie; only another tab's write can |
| IdleProperties.LocationSticks | jquery.ui.idle-logout.js:207-209 | once `logout` has set the location, no step clears it |
| IdleRuns.RunsPreserveInv | jquery.ui.idle-logout.js:67-232 | the invariant holds at the end of any run of allowed steps that starts in a state satisfying it |
| IdleRuns.ReachableInv | jquery.ui.idle-logout.js:12-232 | every state reachable from the plugin's start satisfies the invariant |
| IdleRuns.RunsNeverLowerCookie | jquery.ui.idle-logout.js:172-179 | over a whole run in which no other tab writes the cookie, the cookie never ends lower than it started |
| IdleRuns.RunsKeepLocation | jquery.ui.idle-logout.js:207-209 | once the page has been sent to the logout URL, it stays there over any further run |
| IdleRuns.CountdownTimeoutPointerNeverSet | jquery.ui.idle-logout.js:97-140 | in every reachable state `countdownTimeoutPointer` is still unset, because the countdown's timeout is stored under `logoutCountdownPointer` |

## Left out

- DOM event binding and unbinding (`bind`/`unbind` of `bindEvents`): event plumbing. The setting is kept; `HandleActivity` is the handler those events would call.
- The jQuery UI dialog: it is reduced to `dialogOpen`, the rendered text `message`, the flag `hasTimer` and the timer text. Whether the dialog has a timer element is taken to be whether the message holds `{countdown}`, so HTML in the message that already contains such an element is not recognised.
- Timer execution: only the pending delay of each timer is kept. A negative delay, which fires at once, is kept as a number.
- A second `setTimeout` or `setInterval` into a field that still has a pending timer replaces it in the model, while the browser keeps both running. This happens with `enable` twice, `update` or `startCountdown` called directly, and `init` run again (the old record's timers keep running).
- The clock: each operation takes one `now`. Where the source reads the clock more than once in one call, all reads are taken to be the same instant: `resetFromTime` (lines 196 and 200), `handleActivity` (line 156, then `resetFromTime`) and `update` (line 181, plus `resetFromTime`).
- `$.cookie`: its internals and the string form of the cookie are left out. After `update` adopts the cookie (line 177), `data.lastActivityTime` holds the cookie's string, so a later `enable` computes the logout time at line 123 by string concatenation; the model adds numbers there, and `Enable`'s logout time differs from the source after a cookie adoption. The model assumes a `$.cookie` version that returns `null` for an absent cookie, which JavaScript compares as 0; that is what `CookieTime` does. Versions that return `undefined` instead make both comparisons at lines 172 and 175 false, so `update` would never write a missing cookie; that behaviour is not modelled. Cookie writes from other tabs are the `CookieWritten` step, and two reads in one `update` see the same value.
- The redirect to `logoutUrl`: it is the `location` field. What the page does after navigating is left out.
- `console.debug` and `console.log`: `Plugin.Update` returns whether the idle check would log, and nothing else is kept.
- JavaScript numbers are integers here. `NaN`, fractions and floating-point rounding are left out.
- IdleLogout.Plugin.Enable: requires `idleMilliseconds % 1000 == 0`, so `idleMilliseconds / 1000` stays an integer. The same requirement applies to `init` when `autostart` is set.
- IdleLogout.Plugin.ResetFromTime: the timestamp is taken to be a number. `handleActivity` passes one; `update` passes the cookie's string, which the subtraction `new Date().getTime() - timestamp` converts to a number, and the model keeps the cookie as that number.
- IdleLogout.Plugin.HandleActivity, and every method except `init`: requires that `init` has run. Before `init`, `data` is undefined and the source throws a `TypeError`, so this error path is not modelled.
- IdleLogout.Plugin.Call: the `methods` table is looked up by its own properties only. `methods['toString']` and other names inherited from `Object.prototype` are left out.
- Return values: every method returns `this` for chaining, and that is left out.
- Setting values of `null`: `$.extend` copies them, but an option is either present with a value of its type or absent.
