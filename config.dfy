/**
 * The plugin's settings: the `defaults` object, the options a caller passes to
 * `init`, and the `$.extend(defaults, options)` merge that combines them.
 */
module Config {
  import opened Wrappers

  /** Every setting the plugin reads (jquery.ui.idle-logout.js, the `defaults` object). */
  datatype Settings = Settings(
    idleMilliseconds: int,
    countdownSeconds: int,
    countdownMessage: string,
    logoutUrl: string,
    cookieDomain: string,
    updateMilliseconds: int,
    bindEvents: string,
    autostart: bool)

  /**
   * An options object as `$.extend` sees it: one slot per setting, `None` when the
   * object has no such property (or holds `undefined`, which `$.extend` skips).
   */
  datatype Options = Options(
    idleMilliseconds: Option<int>,
    countdownSeconds: Option<int>,
    countdownMessage: Option<string>,
    logoutUrl: Option<string>,
    cookieDomain: Option<string>,
    updateMilliseconds: Option<int>,
    bindEvents: Option<string>,
    autostart: Option<bool>)

  const NoOptions: Options := Options(None, None, None, None, None, None, None, None)

  const DefaultMessage: string := "You will be logged out due to inactivity in {countdown} seconds."

  /** The defaults; `cookieDomain` defaults to the page's host name, given here as a parameter. */
  function Defaults(hostname: string): (r: Settings)
    ensures r.cookieDomain == hostname && r.countdownMessage == DefaultMessage && r.autostart
    ensures r.idleMilliseconds % 1000 == 0
    ensures 0 < r.updateMilliseconds < r.countdownSeconds * 1000 < r.idleMilliseconds
  {
    Settings(
      20 * 60 * 1000,
      30,
      DefaultMessage,
      "/logout",
      hostname,
      100,
      "mousemove mousedown mouseup keydown keyup focus blur",
      true)
  }

  /**
   * `$.extend(d, o)`: every property present in `o` overrides the one in `d`;
   * every other setting keeps its value from `d`.
   */
  function Merge(d: Settings, o: Options): (r: Settings)
    ensures o == NoOptions ==> r == d
    ensures o.idleMilliseconds.Some? ==> r.idleMilliseconds == o.idleMilliseconds.value
    ensures o.idleMilliseconds.None? ==> r.idleMilliseconds == d.idleMilliseconds
    ensures o.countdownSeconds.Some? ==> r.countdownSeconds == o.countdownSeconds.value
    ensures o.countdownSeconds.None? ==> r.countdownSeconds == d.countdownSeconds
    ensures o.countdownMessage.Some? ==> r.countdownMessage == o.countdownMessage.value
    ensures o.countdownMessage.None? ==> r.countdownMessage == d.countdownMessage
    ensures o.logoutUrl.Some? ==> r.logoutUrl == o.logoutUrl.value
    ensures o.logoutUrl.None? ==> r.logoutUrl == d.logoutUrl
    ensures o.cookieDomain.Some? ==> r.cookieDomain == o.cookieDomain.value
    ensures o.cookieDomain.None? ==> r.cookieDomain == d.cookieDomain
    ensures o.updateMilliseconds.Some? ==> r.updateMilliseconds == o.updateMilliseconds.value
    ensures o.updateMilliseconds.None? ==> r.updateMilliseconds == d.updateMilliseconds
    ensures o.bindEvents.Some? ==> r.bindEvents == o.bindEvents.value
    ensures o.bindEvents.None? ==> r.bindEvents == d.bindEvents
    ensures o.autostart.Some? ==> r.autostart == o.autostart.value
    ensures o.autostart.None? ==> r.autostart == d.autostart
  {
    Settings(
      o.idleMilliseconds.GetOr(d.idleMilliseconds),
      o.countdownSeconds.GetOr(d.countdownSeconds),
      o.countdownMessage.GetOr(d.countdownMessage),
      o.logoutUrl.GetOr(d.logoutUrl),
      o.cookieDomain.GetOr(d.cookieDomain),
      o.updateMilliseconds.GetOr(d.updateMilliseconds),
      o.bindEvents.GetOr(d.bindEvents),
      o.autostart.GetOr(d.autostart))
  }

  /** Extending twice with the same options changes nothing more than extending once. */
  lemma MergeIdempotent(d: Settings, o: Options)
    ensures Merge(Merge(d, o), o) == Merge(d, o)
  {
  }

  /** Extending with `o1` and then `o2` is extending once with `o2` laid over `o1`. */
  lemma MergeTwice(d: Settings, o1: Options, o2: Options)
    ensures Merge(Merge(d, o1), o2) == Merge(d, Overlay(o1, o2))
  {
  }

  /** The properties of `o2`, and those of `o1` that `o2` does not have. */
  function Overlay(o1: Options, o2: Options): Options {
    Options(
      if o2.idleMilliseconds.Some? then o2.idleMilliseconds else o1.idleMilliseconds,
      if o2.countdownSeconds.Some? then o2.countdownSeconds else o1.countdownSeconds,
      if o2.countdownMessage.Some? then o2.countdownMessage else o1.countdownMessage,
      if o2.logoutUrl.Some? then o2.logoutUrl else o1.logoutUrl,
      if o2.cookieDomain.Some? then o2.cookieDomain else o1.cookieDomain,
      if o2.updateMilliseconds.Some? then o2.updateMilliseconds else o1.updateMilliseconds,
      if o2.bindEvents.Some? then o2.bindEvents else o1.bindEvents,
      if o2.autostart.Some? then o2.autostart else o1.autostart)
  }
}
