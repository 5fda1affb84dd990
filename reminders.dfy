/** The reminders screen: switching a channel on or off (on only once
    notification permission is granted) and changing a channel's time. The new
    settings are handed to the app's `setReminders`; here that hand-over is the
    returned `commit`. */
module Reminders {
  import opened Base
  import opened Types
  import opened Notifications

  /** `{...reminders, [type]: {...reminders[type], enabled}}` */
  function WithEnabled(s: ReminderSettings, ch: Channel, enabled: bool): (r: ReminderSettings)
    ensures Get(r, ch) == Reminder(enabled, Get(s, ch).time)
    ensures Get(r, Other(ch)) == Get(s, Other(ch))
  {
    match ch
    case ExerciseChannel => s.(exercise := s.exercise.(enabled := enabled))
    case ZenChannel => s.(zen := s.zen.(enabled := enabled))
  }

  /** `handleTimeChange(type, time)`: `{...reminders, [type]: {...reminders[type], time}}` */
  function WithTime(s: ReminderSettings, ch: Channel, time: string): (r: ReminderSettings)
    ensures Get(r, ch) == Reminder(Get(s, ch).enabled, time)
    ensures Get(r, Other(ch)) == Get(s, Other(ch))
  {
    match ch
    case ExerciseChannel => s.(exercise := s.exercise.(time := time))
    case ZenChannel => s.(zen := s.zen.(time := time))
  }

  /** Switching a channel and switching it back gives the settings back. */
  lemma ToggleBackRestores(s: ReminderSettings, ch: Channel)
    ensures WithEnabled(WithEnabled(s, ch, !Get(s, ch).enabled), ch, Get(s, ch).enabled) == s
  {
  }

  /** A time change followed by the old time gives the settings back, and a
      time change never switches a channel on or off. */
  lemma TimeChangeRestores(s: ReminderSettings, ch: Channel, time: string)
    ensures WithTime(WithTime(s, ch, time), ch, Get(s, ch).time) == s
    ensures forall c :: Get(WithTime(s, ch, time), c).enabled == Get(s, c).enabled
  {
    forall c ensures Get(WithTime(s, ch, time), c).enabled == Get(s, c).enabled {
      if c != ch {
        assert c == Other(ch);
      }
    }
  }

  class Panel {
    /** The screen's copy of the browser's notification permission. */
    var permission: Permission

    constructor(browser: Permission)
      ensures permission == browser
    {
      permission := browser;
    }

    /** `handleToggle(type)`. `browser` is the browser's own permission when the
        handler runs and `answer` what the user picks if prompted. The screen
        exists only where the Notification API does, so the request is made
        with the API present. */
    method HandleToggle(reminders: ReminderSettings, ch: Channel, browser: Permission, answer: Permission)
      returns (commit: Option<ReminderSettings>, prompted: bool)
      modifies this
      ensures Get(reminders, ch).enabled ==>
        && commit == Some(WithEnabled(reminders, ch, false))
        && !prompted && permission == old(permission)
      ensures !Get(reminders, ch).enabled && old(permission) == Granted ==>
        && commit == Some(WithEnabled(reminders, ch, true))
        && !prompted && permission == Granted
      ensures !Get(reminders, ch).enabled && old(permission) != Granted ==>
        var req := RequestPermission(true, browser, answer);
        && prompted == req.prompted
        && (req.granted ==> permission == Granted && commit == Some(WithEnabled(reminders, ch, true)))
        && (!req.granted ==> permission == (if req.prompted then answer else browser) && commit == None)
    {
      var isEnabling := !Get(reminders, ch).enabled;
      var permissionGranted := permission == Granted;
      prompted := false;

      if isEnabling && !permissionGranted {
        var req := RequestPermission(true, browser, answer);
        prompted := req.prompted;
        if req.granted {
          permission := Granted;
          permissionGranted := true;
        } else {
          permission := if req.prompted then answer else browser;
        }
      }

      if isEnabling && !permissionGranted {
        commit := None;
        return;
      }

      commit := Some(WithEnabled(reminders, ch, if isEnabling then permissionGranted else false));
    }
  }
}
