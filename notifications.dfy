/** The daily reminder scheduler: a process-wide dictionary from channel id to
    the handle of a pending one-shot browser timer. Scheduling computes the next
    occurrence of an "HH:MM" time of day, arms a timer for it, and the timer,
    when it fires, shows the notification (if permitted) and schedules itself
    again. The clock is milliseconds since local midnight; the browser's timer
    table is part of the state, so that "cancelled timers never fire" can be
    stated: only a timer still in that table can fire. */
module Notifications {
  import opened Base

  const MinuteMs: nat := 60_000
  const DayMs: nat := 86_400_000

  /** `Notification.permission` */
  datatype Permission = Granted | Denied | Default

  // ---------------------------------------------------------------------------
  // Permission request
  // ---------------------------------------------------------------------------

  /** What `requestNotificationPermission` resolves to, and whether it showed the
      browser's prompt. */
  datatype PermissionRequest = PermissionRequest(granted: bool, prompted: bool)

  /** `requestNotificationPermission`: `supported` says whether the browser has
      the Notification API, `current` is its permission before the call and
      `answer` is what the user picks if prompted. */
  function RequestPermission(supported: bool, current: Permission, answer: Permission): (r: PermissionRequest)
    ensures r.prompted <==> supported && current == Default
    ensures r.granted <==> supported && (current == Granted || (current == Default && answer == Granted))
    ensures r.granted && !r.prompted ==> current == Granted
  {
    if !supported then PermissionRequest(false, false)
    else if current == Granted then PermissionRequest(true, false)
    else if current != Denied then PermissionRequest(answer == Granted, true)
    else PermissionRequest(false, false)
  }

  // ---------------------------------------------------------------------------
  // Time of day
  // ---------------------------------------------------------------------------

  function DigitValue(c: char): (d: nat)
    requires IsDigit(c)
    ensures d < 10
  {
    c as int - '0' as int
  }

  function DigitChar(d: nat): (c: char)
    requires d < 10
    ensures IsDigit(c) && DigitValue(c) == d
  {
    ('0' as int + d) as char
  }

  function TwoDigits(a: char, b: char): (n: nat)
    requires IsDigit(a) && IsDigit(b)
    ensures n < 100
  {
    DigitValue(a) * 10 + DigitValue(b)
  }

  /** A well-formed "HH:MM" value, as a time input produces it. */
  predicate WellFormedTime(s: string) {
    && |s| == 5
    && IsDigit(s[0]) && IsDigit(s[1]) && s[2] == ':' && IsDigit(s[3]) && IsDigit(s[4])
    && TwoDigits(s[0], s[1]) < 24 && TwoDigits(s[3], s[4]) < 60
  }

  datatype TimeOfDay = TimeOfDay(hours: nat, minutes: nat)

  predicate ValidTime(t: TimeOfDay) { t.hours < 24 && t.minutes < 60 }

  /** `time.split(':').map(Number)` on a well-formed value. */
  function ParseTime(s: string): (t: TimeOfDay)
    requires WellFormedTime(s)
    ensures ValidTime(t)
  {
    TimeOfDay(TwoDigits(s[0], s[1]), TwoDigits(s[3], s[4]))
  }

  /** The "HH:MM" text of a time of day (zero-padded). */
  function FormatTime(t: TimeOfDay): (s: string)
    requires ValidTime(t)
    ensures WellFormedTime(s)
  {
    [DigitChar(t.hours / 10), DigitChar(t.hours % 10), ':', DigitChar(t.minutes / 10), DigitChar(t.minutes % 10)]
  }

  lemma ParseFormat(t: TimeOfDay)
    requires ValidTime(t)
    ensures ParseTime(FormatTime(t)) == t
  {
  }

  lemma FormatParse(s: string)
    requires WellFormedTime(s)
    ensures FormatTime(ParseTime(s)) == s
  {
    var t := ParseTime(s);
    var f := FormatTime(t);
    assert f[0] == s[0] && f[1] == s[1] && f[2] == s[2] && f[3] == s[3] && f[4] == s[4];
  }

  // ---------------------------------------------------------------------------
  // Next occurrence
  // ---------------------------------------------------------------------------

  /** Today's hh:mm:00.000, in milliseconds since midnight. */
  function TodayTarget(t: TimeOfDay): (ms: nat)
    requires ValidTime(t)
    ensures ms < DayMs
  {
    (t.hours * 60 + t.minutes) * MinuteMs
  }

  /** Milliseconds from `now` until the next time the wall clock reads `t`:
      today's occurrence if it is strictly later than `now`, tomorrow's
      otherwise (an occurrence equal to `now` counts as passed). */
  function NextDelay(t: TimeOfDay, now: nat): (d: int)
    requires ValidTime(t) && now < DayMs
    ensures 0 < d <= DayMs
    ensures (now + d) % DayMs == TodayTarget(t)
  {
    var target := TodayTarget(t);
    var notificationTime := if target <= now then target + DayMs else target;
    notificationTime - now
  }

  /** No positive delay that lands on the target time is shorter. */
  lemma NextDelayIsSoonest(t: TimeOfDay, now: nat, d: int)
    requires ValidTime(t) && now < DayMs
    requires 0 < d && (now + d) % DayMs == TodayTarget(t)
    ensures NextDelay(t, now) <= d
  {
    var q := (now + d) / DayMs;
    assert now + d == q * DayMs + TodayTarget(t);
    if TodayTarget(t) <= now {
      assert q >= 1;
    } else {
      assert q >= 0;
    }
  }

  /** The timer fires later today exactly when today's occurrence is strictly
      after `now`; otherwise, equality included, it fires tomorrow. */
  lemma FiresTodayIff(t: TimeOfDay, now: nat)
    requires ValidTime(t) && now < DayMs
    ensures now + NextDelay(t, now) < DayMs <==> TodayTarget(t) > now
    ensures now + NextDelay(t, now) >= DayMs ==> now + NextDelay(t, now) == DayMs + TodayTarget(t)
  {
  }

  /** A timer that fires exactly at its time of day re-arms for 24 hours later. */
  lemma AtTargetNextIsOneDay(t: TimeOfDay)
    requires ValidTime(t)
    ensures NextDelay(t, TodayTarget(t)) == DayMs
  {
  }

  // ---------------------------------------------------------------------------
  // Scheduler state as a value
  // ---------------------------------------------------------------------------

  /** What a pending browser timer will do when it fires: the arguments its
      callback closes over, and the delay it was armed with. */
  datatype Timer = Timer(id: string, title: string, body: string, time: string, delay: int)

  /** `timeouts` is the module's dictionary; `armed` is the browser's table of
      pending timers by handle; `nextHandle` is the next handle the browser
      hands out (handles are positive). */
  datatype SchedulerState = SchedulerState(timeouts: map<string, nat>, armed: map<nat, Timer>, nextHandle: nat)

  const Empty := SchedulerState(map[], map[], 1)

  /** The dictionary and the timer table describe each other: every stored
      handle is pending for its own id, and every pending timer is the stored
      one for its id. */
  ghost predicate Consistent(s: SchedulerState) {
    && 0 < s.nextHandle
    && (forall id :: id in s.timeouts ==> s.timeouts[id] in s.armed && s.armed[s.timeouts[id]].id == id)
    && (forall h :: h in s.armed ==>
          && 0 < h < s.nextHandle
          && s.armed[h].id in s.timeouts && s.timeouts[s.armed[h].id] == h
          && WellFormedTime(s.armed[h].time))
  }

  /** The pending reminder of each id. */
  function Pending(s: SchedulerState): map<string, Timer> {
    map id | id in s.timeouts && s.timeouts[id] in s.armed :: s.armed[s.timeouts[id]]
  }

  /** `cancelNotification(id)`: a truthy stored handle is cleared and deleted. */
  function Cancelled(s: SchedulerState, id: string): (r: SchedulerState)
    ensures id in s.timeouts && s.timeouts[id] != 0 ==> id !in r.timeouts && s.timeouts[id] !in r.armed
    ensures forall k :: k != id ==> (k in r.timeouts <==> k in s.timeouts)
    ensures forall k :: k != id && k in s.timeouts ==> r.timeouts[k] == s.timeouts[k]
    ensures r.armed.Keys <= s.armed.Keys && forall h :: h in r.armed ==> r.armed[h] == s.armed[h]
    ensures r.nextHandle == s.nextHandle
  {
    if id in s.timeouts && s.timeouts[id] != 0 then
      SchedulerState(s.timeouts - {id}, s.armed - {s.timeouts[id]}, s.nextHandle)
    else
      s
  }

  /** `scheduleNotification(id, title, body, time)` at clock `now`. */
  function Scheduled(s: SchedulerState, id: string, title: string, body: string, time: string, now: nat): (r: SchedulerState)
    requires WellFormedTime(time) && now < DayMs
    ensures id in r.timeouts && r.timeouts[id] == s.nextHandle && s.nextHandle in r.armed
    ensures r.armed[s.nextHandle] == Timer(id, title, body, time, NextDelay(ParseTime(time), now))
    ensures forall k :: k != id && k in s.timeouts ==> k in r.timeouts && r.timeouts[k] == s.timeouts[k]
    ensures r.nextHandle == s.nextHandle + 1
  {
    var c := Cancelled(s, id);
    var delay := NextDelay(ParseTime(time), now);
    if delay < 0 then c
    else Armed(c, Timer(id, title, body, time, delay))
  }

  /** `window.setTimeout` hands out a fresh handle for timer `t`, and the
      dictionary records it under `t.id`. */
  function Armed(c: SchedulerState, t: Timer): (r: SchedulerState)
    ensures t.id in r.timeouts && r.timeouts[t.id] == c.nextHandle
    ensures c.nextHandle in r.armed && r.armed[c.nextHandle] == t
    ensures forall k :: k != t.id ==> (k in r.timeouts <==> k in c.timeouts)
    ensures forall k :: k != t.id && k in c.timeouts ==> r.timeouts[k] == c.timeouts[k]
    ensures forall h :: h != c.nextHandle ==> (h in r.armed <==> h in c.armed)
    ensures r.nextHandle > c.nextHandle
  {
    SchedulerState(c.timeouts[t.id := c.nextHandle], c.armed[c.nextHandle := t], c.nextHandle + 1)
  }

  datatype FireOutcome = FireOutcome(state: SchedulerState, shown: bool)

  /** The browser runs pending timer `h` at clock `now`: the one-shot timer
      leaves the table, the notification is shown iff permission is granted,
      and the callback schedules the same reminder again. */
  function Fired(s: SchedulerState, h: nat, permission: Permission, now: nat): (o: FireOutcome)
    requires h in s.armed && WellFormedTime(s.armed[h].time) && now < DayMs
    ensures o.shown <==> permission == Granted
    ensures h < s.nextHandle ==> h !in o.state.armed
    ensures var t := s.armed[h];
      && t.id in o.state.timeouts && o.state.timeouts[t.id] in o.state.armed
      && o.state.armed[o.state.timeouts[t.id]] == Timer(t.id, t.title, t.body, t.time, NextDelay(ParseTime(t.time), now))
  {
    var t := s.armed[h];
    var consumed := s.(armed := s.armed - {h});
    FireOutcome(Scheduled(consumed, t.id, t.title, t.body, t.time, now), permission == Granted)
  }

  // ---------------------------------------------------------------------------
  // Properties of the scheduler
  // ---------------------------------------------------------------------------

  lemma EmptyIsConsistent()
    ensures Consistent(Empty) && Pending(Empty) == map[]
  {
  }

  /** In a consistent state no two pending timers belong to the same id. */
  lemma OneTimerPerId(s: SchedulerState, h1: nat, h2: nat)
    requires Consistent(s)
    requires h1 in s.armed && h2 in s.armed && s.armed[h1].id == s.armed[h2].id
    ensures h1 == h2
  {
  }

  /** Cancelling removes exactly `id`, is a no-op when `id` has no entry, and
      doing it twice is the same as doing it once. */
  lemma CancelledSpec(s: SchedulerState, id: string)
    requires Consistent(s)
    ensures Consistent(Cancelled(s, id))
    ensures Pending(Cancelled(s, id)) == Pending(s) - {id}
    ensures id !in Cancelled(s, id).timeouts
    ensures forall h :: h in Cancelled(s, id).armed ==> Cancelled(s, id).armed[h].id != id
    ensures id !in s.timeouts ==> Cancelled(s, id) == s
    ensures Cancelled(Cancelled(s, id), id) == Cancelled(s, id)
  {
    var r := Cancelled(s, id);
    if id in s.timeouts {
      assert s.timeouts[id] != 0;
      forall h | h in r.armed ensures r.armed[h].id != id {
        assert s.timeouts[s.armed[h].id] == h;
      }
    }
    assert Pending(r).Keys == Pending(s).Keys - {id};
  }

  /** Arming a timer for an id that has no entry keeps the state consistent
      and adds exactly that reminder. */
  lemma ArmedSpec(c: SchedulerState, t: Timer)
    requires Consistent(c) && t.id !in c.timeouts && WellFormedTime(t.time)
    ensures Consistent(Armed(c, t))
    ensures Pending(Armed(c, t)) == Pending(c)[t.id := t]
    ensures forall h :: h in Armed(c, t).armed && Armed(c, t).armed[h].id == t.id ==> h == c.nextHandle
  {
    var n := c.nextHandle;
    var r := Armed(c, t);
    assert n !in c.armed;
    forall id' | id' in r.timeouts
      ensures r.timeouts[id'] in r.armed && r.armed[r.timeouts[id']].id == id'
    {
      if id' != t.id {
        assert r.timeouts[id'] == c.timeouts[id'] != n;
      }
    }
    forall h | h in r.armed
      ensures 0 < h < r.nextHandle && r.armed[h].id in r.timeouts && r.timeouts[r.armed[h].id] == h
      ensures WellFormedTime(r.armed[h].time)
    {
      if h != n {
        assert r.armed[h] == c.armed[h] && c.armed[h].id != t.id;
      }
    }
    assert Pending(r).Keys == Pending(c).Keys + {t.id};
    forall id' | id' in Pending(r) ensures Pending(r)[id'] == Pending(c)[t.id := t][id'] {
      if id' != t.id {
        assert r.timeouts[id'] == c.timeouts[id'] != n;
      }
    }
  }

  /** Scheduling leaves exactly one pending timer for `id`, armed with the
      next-occurrence delay; the previous one (if any) is no longer pending,
      and every other id keeps its reminder. */
  lemma ScheduledSpec(s: SchedulerState, id: string, title: string, body: string, time: string, now: nat)
    requires Consistent(s) && WellFormedTime(time) && now < DayMs
    ensures Consistent(Scheduled(s, id, title, body, time, now))
    ensures Pending(Scheduled(s, id, title, body, time, now))
         == Pending(s)[id := Timer(id, title, body, time, NextDelay(ParseTime(time), now))]
    ensures id in Scheduled(s, id, title, body, time, now).timeouts
    ensures var r := Scheduled(s, id, title, body, time, now);
      forall h :: h in r.armed && r.armed[h].id == id ==> h == r.timeouts[id]
    ensures id in s.timeouts ==> s.timeouts[id] !in Scheduled(s, id, title, body, time, now).armed
  {
    var c := Cancelled(s, id);
    CancelledSpec(s, id);
    var t := Timer(id, title, body, time, NextDelay(ParseTime(time), now));
    assert Scheduled(s, id, title, body, time, now) == Armed(c, t);
    ArmedSpec(c, t);
    MapRemoveUpdate(Pending(s), id, t);
  }

  /** Scheduling twice in a row leaves one pending timer for `id`: the second. */
  lemma ScheduleTwice(s: SchedulerState, id: string, title: string, body: string, time: string, now: nat,
                      title': string, body': string, time': string, now': nat)
    requires Consistent(s) && WellFormedTime(time) && WellFormedTime(time') && now < DayMs && now' < DayMs
    ensures var r := Scheduled(Scheduled(s, id, title, body, time, now), id, title', body', time', now');
      && Pending(r) == Pending(s)[id := Timer(id, title', body', time', NextDelay(ParseTime(time'), now'))]
      && (forall h :: h in r.armed && r.armed[h].id == id ==> h == r.timeouts[id])
  {
    var s1 := Scheduled(s, id, title, body, time, now);
    ScheduledSpec(s, id, title, body, time, now);
    ScheduledSpec(s1, id, title', body', time', now');
    MapUpdateTwice(Pending(s), id,
      Timer(id, title, body, time, NextDelay(ParseTime(time), now)),
      Timer(id, title', body', time', NextDelay(ParseTime(time'), now')));
  }

  /** Scheduling and then cancelling leaves no timer that could fire for `id`,
      and the other ids keep their reminders. */
  lemma ScheduleThenCancel(s: SchedulerState, id: string, title: string, body: string, time: string, now: nat)
    requires Consistent(s) && WellFormedTime(time) && now < DayMs
    ensures Consistent(Cancelled(Scheduled(s, id, title, body, time, now), id))
    ensures var r := Cancelled(Scheduled(s, id, title, body, time, now), id);
      forall h :: h in r.armed ==> r.armed[h].id != id
    ensures Pending(Cancelled(Scheduled(s, id, title, body, time, now), id)) == Pending(s) - {id}
  {
    var s1 := Scheduled(s, id, title, body, time, now);
    ScheduledSpec(s, id, title, body, time, now);
    CancelledSpec(s1, id);
    var t := Timer(id, title, body, time, NextDelay(ParseTime(time), now));
    MapUpdateRemove(Pending(s), id, t);
  }

  lemma MapUpdateRemove<K, V>(m: map<K, V>, k: K, v: V)
    ensures m[k := v] - {k} == m - {k}
  {
  }

  lemma MapUpdateTwice<K, V>(m: map<K, V>, k: K, v: V, v': V)
    ensures m[k := v][k := v'] == m[k := v']
  {
  }

  lemma MapRemoveUpdate<K, V>(m: map<K, V>, k: K, v: V)
    ensures (m - {k})[k := v] == m[k := v]
  {
  }

  /** The stale handle left in the dictionary by a timer that has just fired
      points at nothing: cancelling it after the timer left the table gives the
      same state as cancelling the pending timer. */
  lemma ConsumedThenCancelled(s: SchedulerState, h: nat)
    requires Consistent(s) && h in s.armed
    ensures Cancelled(s.(armed := s.armed - {h}), s.armed[h].id) == Cancelled(s, s.armed[h].id)
  {
  }

  /** Firing consumes the timer, shows the notification iff permission is
      granted, and re-arms the same reminder whatever the permission. */
  lemma FiredSpec(s: SchedulerState, h: nat, permission: Permission, now: nat)
    requires Consistent(s) && h in s.armed && now < DayMs
    ensures var t := s.armed[h];
      var o := Fired(s, h, permission, now);
      && Consistent(o.state)
      && (o.shown <==> permission == Granted)
      && h !in o.state.armed
      && Pending(o.state) == Pending(s)[t.id := Timer(t.id, t.title, t.body, t.time, NextDelay(ParseTime(t.time), now))]
  {
    var t := s.armed[h];
    ConsumedThenCancelled(s, h);
    var r := Scheduled(s, t.id, t.title, t.body, t.time, now);
    assert Fired(s, h, permission, now).state == r;
    ScheduledSpec(s, t.id, t.title, t.body, t.time, now);
  }

  // ---------------------------------------------------------------------------
  // The scheduler as the source keeps it: mutable module state
  // ---------------------------------------------------------------------------

  class Scheduler {
    var timeouts: map<string, nat>
    var armed: map<nat, Timer>
    var nextHandle: nat

    function State(): SchedulerState
      reads this
    {
      SchedulerState(timeouts, armed, nextHandle)
    }

    /** The dictionary starts empty at process start. */
    constructor()
      ensures State() == Empty
    {
      timeouts, armed, nextHandle := map[], map[], 1;
    }

    method Cancel(id: string)
      modifies this
      ensures State() == Cancelled(old(State()), id)
    {
      if id in timeouts && timeouts[id] != 0 {
        armed := armed - {timeouts[id]};   // clearTimeout
        timeouts := timeouts - {id};
      }
    }

    method Schedule(id: string, title: string, body: string, time: string, now: nat)
      requires WellFormedTime(time) && now < DayMs
      modifies this
      ensures State() == Scheduled(old(State()), id, title, body, time, now)
    {
      Cancel(id);
      var timeToNotification := NextDelay(ParseTime(time), now);
      if timeToNotification < 0 {
        return;
      }
      var timeoutId := nextHandle;   // setTimeout
      nextHandle := nextHandle + 1;
      armed := armed[timeoutId := Timer(id, title, body, time, timeToNotification)];
      timeouts := timeouts[id := timeoutId];
    }

    /** The browser runs pending timer `h`; returns whether a notification was shown. */
    method Fire(h: nat, permission: Permission, now: nat) returns (shown: bool)
      requires h in armed && Consistent(State()) && now < DayMs
      modifies this
      ensures FireOutcome(State(), shown) == Fired(old(State()), h, permission, now)
    {
      var t := armed[h];
      armed := armed - {h};
      shown := permission == Granted;
      Schedule(t.id, t.title, t.body, t.time, now);
    }
  }
}
