/** The app shell: the current view and selection, the progress photos and
    completed exercises, the reminder settings with their persistence, the
    effect that keeps the scheduler in step with the settings, and which
    screen a view shows. */
module App {
  import opened Base
  import opened Types
  import opened Notifications

  // ---------------------------------------------------------------------------
  // Reminder settings and their persistence
  // ---------------------------------------------------------------------------

  /** Both channels off, exercise at 09:00 and zen at 21:00. */
  const DefaultReminders := ReminderSettings(Reminder(false, "09:00"), Reminder(false, "21:00"))

  /** What the settings key of local storage holds: nothing (or the empty
      text), text that does not parse, or the JSON of some settings. */
  datatype Stored = Absent | Unparsable | Parsed(settings: ReminderSettings)

  /** `localStorage.setItem(key, JSON.stringify(s))` */
  function Saved(s: ReminderSettings): Stored {
    Parsed(s)
  }

  /** The mount effect: stored settings replace `current` when they parse;
      otherwise `current` stays. */
  function Loaded(stored: Stored, current: ReminderSettings): (r: ReminderSettings)
    ensures stored.Parsed? ==> r == stored.settings
    ensures r == current || stored == Saved(r)
  {
    match stored
    case Parsed(s) => s
    case _ => current
  }

  /** What was saved is what the next start loads; with nothing usable stored
      the app starts from the defaults. */
  lemma SaveThenLoad(s: ReminderSettings, current: ReminderSettings, stored: Stored)
    ensures Loaded(Saved(s), current) == s
    ensures !stored.Parsed? ==> Loaded(stored, DefaultReminders) == DefaultReminders
    ensures Loaded(stored, current) == current || stored == Saved(Loaded(stored, current))
  {
  }

  // ---------------------------------------------------------------------------
  // Keeping the scheduler in step with the settings
  // ---------------------------------------------------------------------------

  function Title(ch: Channel): string {
    match ch
    case ExerciseChannel => "Hora de tus ejercicios"
    case ZenChannel => "Tu momento de calma"
  }

  function Body(ch: Channel): string {
    match ch
    case ExerciseChannel => "Â¡Es momento de tu rutina facial diaria! La constancia es clave."
    case ZenChannel => "Dedica unos minutos a relajarte con una actividad en el Espacio Zen."
  }

  /** Every enabled channel carries a time the scheduler can parse. */
  predicate TimesWellFormed(r: ReminderSettings) {
    && (r.exercise.enabled ==> WellFormedTime(r.exercise.time))
    && (r.zen.enabled ==> WellFormedTime(r.zen.time))
  }

  /** One channel's branch of the effect: schedule when enabled, cancel otherwise. */
  function Applied(s: SchedulerState, r: ReminderSettings, ch: Channel, now: nat): (q: SchedulerState)
    requires TimesWellFormed(r) && now < DayMs
    ensures Get(r, ch).enabled ==>
      && ChannelId(ch) in q.timeouts && q.timeouts[ChannelId(ch)] in q.armed
      && q.armed[q.timeouts[ChannelId(ch)]] == TimerFor(r, ch, now)
    ensures !Get(r, ch).enabled ==> q.armed.Keys <= s.armed.Keys && q.nextHandle == s.nextHandle
    ensures forall k :: k != ChannelId(ch) && k in s.timeouts ==> k in q.timeouts && q.timeouts[k] == s.timeouts[k]
  {
    var rem := Get(r, ch);
    if rem.enabled then Scheduled(s, ChannelId(ch), Title(ch), Body(ch), rem.time, now)
    else Cancelled(s, ChannelId(ch))
  }

  /** The effect on `reminders`: the exercise channel, then the zen channel. */
  function Synced(s: SchedulerState, r: ReminderSettings, now: nat): (q: SchedulerState)
    requires TimesWellFormed(r) && now < DayMs
    ensures r.exercise.enabled ==> "exercise" in q.timeouts
    ensures r.zen.enabled ==>
      && "zen" in q.timeouts && q.timeouts["zen"] in q.armed
      && q.armed[q.timeouts["zen"]] == TimerFor(r, ZenChannel, now)
    ensures q.nextHandle == s.nextHandle + (if r.exercise.enabled then 1 else 0) + (if r.zen.enabled then 1 else 0)
  {
    Applied(Applied(s, r, ExerciseChannel, now), r, ZenChannel, now)
  }

  /** The timer a channel's enabled reminder is armed with. */
  function TimerFor(r: ReminderSettings, ch: Channel, now: nat): Timer
    requires TimesWellFormed(r) && now < DayMs && Get(r, ch).enabled
  {
    Timer(ChannelId(ch), Title(ch), Body(ch), Get(r, ch).time, NextDelay(ParseTime(Get(r, ch).time), now))
  }

  /** Pending reminders agree with one channel's setting: its timer when
      enabled, none when disabled. */
  predicate Tracks(q: map<string, Timer>, r: ReminderSettings, ch: Channel, now: nat)
    requires TimesWellFormed(r) && now < DayMs
  {
    && (ChannelId(ch) in q <==> Get(r, ch).enabled)
    && (Get(r, ch).enabled ==> q[ChannelId(ch)] == TimerFor(r, ch, now))
  }

  /** The pending reminders one channel's branch leaves, the other ids untouched. */
  function Tracked(p: map<string, Timer>, r: ReminderSettings, ch: Channel, now: nat): (q: map<string, Timer>)
    requires TimesWellFormed(r) && now < DayMs
    ensures Tracks(q, r, ch, now)
    ensures forall id :: id != ChannelId(ch) ==> (id in q <==> id in p)
    ensures forall id :: id != ChannelId(ch) && id in p ==> q[id] == p[id]
  {
    if Get(r, ch).enabled then p[ChannelId(ch) := TimerFor(r, ch, now)]
    else p - {ChannelId(ch)}
  }

  /** Pending reminders that already agree with a channel are left alone by it. */
  lemma TrackedFixes(q: map<string, Timer>, r: ReminderSettings, ch: Channel, now: nat)
    requires TimesWellFormed(r) && now < DayMs && Tracks(q, r, ch, now)
    ensures Tracked(q, r, ch, now) == q
  {
  }

  /** One channel's branch keeps the scheduler consistent and leaves the
      pending reminders `Tracked` describes. */
  lemma AppliedSpec(s: SchedulerState, r: ReminderSettings, ch: Channel, now: nat)
    requires Consistent(s) && TimesWellFormed(r) && now < DayMs
    ensures Consistent(Applied(s, r, ch, now))
    ensures Pending(Applied(s, r, ch, now)) == Tracked(Pending(s), r, ch, now)
  {
    if Get(r, ch).enabled {
      ScheduledSpec(s, ChannelId(ch), Title(ch), Body(ch), Get(r, ch).time, now);
    } else {
      CancelledSpec(s, ChannelId(ch));
    }
  }

  /** After the effect, exactly the enabled channels have a pending reminder,
      each with its own title, body, time and next-occurrence delay; every
      other id keeps its reminder, and the scheduler stays consistent. */
  lemma SyncedTracksSettings(s: SchedulerState, r: ReminderSettings, now: nat)
    requires Consistent(s) && TimesWellFormed(r) && now < DayMs
    ensures Consistent(Synced(s, r, now))
    ensures Pending(Synced(s, r, now))
         == Tracked(Tracked(Pending(s), r, ExerciseChannel, now), r, ZenChannel, now)
    ensures Tracks(Pending(Synced(s, r, now)), r, ExerciseChannel, now)
    ensures Tracks(Pending(Synced(s, r, now)), r, ZenChannel, now)
  {
    AppliedSpec(s, r, ExerciseChannel, now);
    AppliedSpec(Applied(s, r, ExerciseChannel, now), r, ZenChannel, now);
  }

  /** Running the effect twice with the same settings leaves the same pending
      reminders as running it once. */
  lemma SyncIdempotent(s: SchedulerState, r: ReminderSettings, now: nat)
    requires Consistent(s) && TimesWellFormed(r) && now < DayMs
    ensures Pending(Synced(Synced(s, r, now), r, now)) == Pending(Synced(s, r, now))
  {
    SyncedTracksSettings(s, r, now);
    var p := Pending(Synced(s, r, now));
    SyncedTracksSettings(Synced(s, r, now), r, now);
    TrackedFixes(p, r, ExerciseChannel, now);
    TrackedFixes(p, r, ZenChannel, now);
  }

  // ---------------------------------------------------------------------------
  // Which screen a view shows
  // ---------------------------------------------------------------------------

  datatype Screen =
    | DashboardScreen
    | LibraryScreen
    | DetailScreen(exercise: Exercise)
    | EncyclopediaScreen
    | ZenScreen
    | ProgressScreen
    | RemindersScreen

  /** `renderContent`; a view without its own case falls back to the dashboard. */
  function RenderContent(view: View, selected: Option<Exercise>): Screen {
    match view
    case DashboardView => DashboardScreen
    case ExercisesView => LibraryScreen
    case ExerciseDetailView => if selected.Some? then DetailScreen(selected.value) else LibraryScreen
    case EncyclopediaView => EncyclopediaScreen
    case ZenView => ZenScreen
    case ProgressView => ProgressScreen
    case RemindersView => RemindersScreen
    case _ => DashboardScreen
  }

  /** The detail screen shows exactly the selected exercise and appears only
      with one selected; the library also stands in for a detail view with no
      selection; the article detail view has no screen and shows the dashboard. */
  lemma RenderContentCases(view: View, selected: Option<Exercise>)
    ensures RenderContent(view, selected).DetailScreen? <==> view == ExerciseDetailView && selected.Some?
    ensures RenderContent(view, selected).DetailScreen? ==> RenderContent(view, selected).exercise == selected.value
    ensures RenderContent(view, selected) == LibraryScreen
        <==> view == ExercisesView || (view == ExerciseDetailView && selected.None?)
    ensures RenderContent(view, selected) == DashboardScreen <==> view == DashboardView || view == ArticleDetailView
    ensures view !in {DashboardView, ExercisesView, ExerciseDetailView, ArticleDetailView} ==>
      RenderContent(view, selected) == RenderContent(view, None)
  {
  }

  // ---------------------------------------------------------------------------
  // Progress photos, newest first
  // ---------------------------------------------------------------------------

  ghost predicate NewestFirst(s: seq<ProgressPhoto>) {
    forall i, j :: 0 <= i < j < |s| ==> s[i].date >= s[j].date
  }

  /** Places `p` after every photo at least as new as it. */
  function InsertByDate(sorted: seq<ProgressPhoto>, p: ProgressPhoto): (r: seq<ProgressPhoto>)
    ensures |r| == |sorted| + 1
    decreases |sorted|
  {
    if sorted == [] then [p]
    else if sorted[0].date < p.date then [p] + sorted
    else [sorted[0]] + InsertByDate(sorted[1..], p)
  }

  /** Insertion adds `p` and loses nothing: the result holds the old photos
      and `p`, each as often as before. */
  lemma {:induction false} InsertByDateContents(sorted: seq<ProgressPhoto>, p: ProgressPhoto)
    ensures multiset(InsertByDate(sorted, p)) == multiset(sorted) + multiset{p}
    ensures forall i :: 0 <= i < |InsertByDate(sorted, p)| ==> InsertByDate(sorted, p)[i] == p || InsertByDate(sorted, p)[i] in sorted
    decreases |sorted|
  {
    if sorted != [] && sorted[0].date >= p.date {
      var r := InsertByDate(sorted, p);
      var rest := InsertByDate(sorted[1..], p);
      InsertByDateContents(sorted[1..], p);
      assert r == [sorted[0]] + rest;
      assert sorted == [sorted[0]] + sorted[1..];
      forall i | 0 <= i < |r| ensures r[i] == p || r[i] in sorted {
        if i > 0 {
          assert r[i] == rest[i - 1];
        }
      }
    }
  }

  lemma {:induction false} InsertKeepsOrder(sorted: seq<ProgressPhoto>, p: ProgressPhoto)
    requires NewestFirst(sorted)
    ensures NewestFirst(InsertByDate(sorted, p))
    decreases |sorted|
  {
    if sorted != [] && sorted[0].date >= p.date {
      InsertKeepsOrder(sorted[1..], p);
      InsertByDateContents(sorted[1..], p);
      var r := InsertByDate(sorted, p);
      forall i, j | 0 <= i < j < |r| ensures r[i].date >= r[j].date {
        if i == 0 {
          assert r[j] == p || r[j] in sorted[1..];
        } else {
          assert r[i] == InsertByDate(sorted[1..], p)[i - 1];
        }
      }
    }
  }

  /** A stable sort, newest first: the one result `Array.prototype.sort` gives
      with the comparator `b.date - a.date` (see `SortIsPermutation`,
      `SortIsNewestFirst` and `SortIsStable`). */
  function SortNewestFirst(s: seq<ProgressPhoto>): (r: seq<ProgressPhoto>)
    ensures |r| == |s|
    decreases |s|
  {
    if s == [] then [] else InsertByDate(SortNewestFirst(s[..|s| - 1]), s[|s| - 1])
  }

  /** The sort returns a permutation of its input. */
  lemma {:induction false} SortIsPermutation(s: seq<ProgressPhoto>)
    ensures multiset(SortNewestFirst(s)) == multiset(s)
    decreases |s|
  {
    if s != [] {
      var init, last := s[..|s| - 1], s[|s| - 1];
      SortIsPermutation(init);
      InsertByDateContents(SortNewestFirst(init), last);
      assert s == init + [last];
    }
  }

  /** The sort returns its input newest first. */
  lemma {:induction false} SortIsNewestFirst(s: seq<ProgressPhoto>)
    ensures NewestFirst(SortNewestFirst(s))
    decreases |s|
  {
    if s != [] {
      SortIsNewestFirst(s[..|s| - 1]);
      InsertKeepsOrder(SortNewestFirst(s[..|s| - 1]), s[|s| - 1]);
    }
  }

  /** The photos taken at instant `d`, in their order in `s`. */
  function OnDate(s: seq<ProgressPhoto>, d: int): seq<ProgressPhoto>
    decreases |s|
  {
    if s == [] then [] else (if s[0].date == d then [s[0]] else []) + OnDate(s[1..], d)
  }

  lemma {:induction false} OnDateAppend(s: seq<ProgressPhoto>, p: ProgressPhoto, d: int)
    ensures OnDate(s + [p], d) == OnDate(s, d) + (if p.date == d then [p] else [])
    decreases |s|
  {
    if s != [] {
      assert (s + [p])[1..] == s[1..] + [p];
      OnDateAppend(s[1..], p, d);
    } else {
      assert [p][1..] == [];
    }
  }

  /** The rest of a newest-first list is newest first. */
  lemma NewestFirstTail(s: seq<ProgressPhoto>)
    requires NewestFirst(s) && s != []
    ensures NewestFirst(s[1..])
  {
    forall i, j | 0 <= i < j < |s[1..]| ensures s[1..][i].date >= s[1..][j].date {
      assert s[1..][i] == s[i + 1] && s[1..][j] == s[j + 1];
    }
  }

  /** A newest-first list whose first photo is older than `d` has no photo
      taken at `d`. */
  lemma {:induction false} NoneOnLaterDate(s: seq<ProgressPhoto>, d: int)
    requires NewestFirst(s) && s != [] && s[0].date < d
    ensures OnDate(s, d) == []
    decreases |s|
  {
    if |s| > 1 {
      NewestFirstTail(s);
      assert s[1..][0].date <= s[0].date;
      NoneOnLaterDate(s[1..], d);
    }
  }

  /** Inserting into a newest-first list puts `p` after every photo of its
      own instant. */
  lemma {:induction false} InsertAfterEqualDates(sorted: seq<ProgressPhoto>, p: ProgressPhoto, d: int)
    requires NewestFirst(sorted)
    ensures OnDate(InsertByDate(sorted, p), d) == OnDate(sorted, d) + (if p.date == d then [p] else [])
    decreases |sorted|
  {
    if sorted != [] {
      var r := InsertByDate(sorted, p);
      if sorted[0].date < p.date {
        assert r == [p] + sorted;
        assert r[1..] == sorted;
        if p.date == d {
          NoneOnLaterDate(sorted, d);
        }
      } else {
        var tail := sorted[1..];
        NewestFirstTail(sorted);
        InsertAfterEqualDates(tail, p, d);
        assert r == [sorted[0]] + InsertByDate(tail, p);
        assert r[1..] == InsertByDate(tail, p);
      }
    }
  }

  /** Inserting into a sorted list puts `p` after every photo of its own
      instant. */
  lemma InsertIntoSortedAfterEqualDates(s: seq<ProgressPhoto>, p: ProgressPhoto, d: int)
    ensures OnDate(InsertByDate(SortNewestFirst(s), p), d)
         == OnDate(SortNewestFirst(s), d) + (if p.date == d then [p] else [])
  {
    SortIsNewestFirst(s);
    InsertAfterEqualDates(SortNewestFirst(s), p, d);
  }

  /** The sort is stable: photos of the same instant keep their input order. */
  lemma {:induction false} SortIsStable(s: seq<ProgressPhoto>, d: int)
    ensures OnDate(SortNewestFirst(s), d) == OnDate(s, d)
    decreases |s|
  {
    if s != [] {
      var init, last := s[..|s| - 1], s[|s| - 1];
      SortIsStable(init, d);
      InsertIntoSortedAfterEqualDates(init, last, d);
      assert s == init + [last];
      OnDateAppend(init, last, d);
    }
  }

  /** `addPhoto`: append, then sort newest first. */
  function AddedPhoto(prev: seq<ProgressPhoto>, p: ProgressPhoto): (r: seq<ProgressPhoto>)
    ensures multiset(r) == multiset(prev) + multiset{p}
    ensures NewestFirst(r)
  {
    SortIsPermutation(prev + [p]);
    SortIsNewestFirst(prev + [p]);
    SortNewestFirst(prev + [p])
  }

  /** Inserting a photo no newer than all the others appends it. */
  lemma {:induction false} InsertOldestAppends(sorted: seq<ProgressPhoto>, p: ProgressPhoto)
    requires forall i :: 0 <= i < |sorted| ==> sorted[i].date >= p.date
    ensures InsertByDate(sorted, p) == sorted + [p]
    decreases |sorted|
  {
    if sorted != [] {
      InsertOldestAppends(sorted[1..], p);
    }
  }

  /** Sorting a list that is already newest first leaves it as it is. */
  lemma {:induction false} SortKeepsSorted(s: seq<ProgressPhoto>)
    requires NewestFirst(s)
    ensures SortNewestFirst(s) == s
    decreases |s|
  {
    if s != [] {
      var init := s[..|s| - 1];
      SortKeepsSorted(init);
      InsertOldestAppends(init, s[|s| - 1]);
    }
  }

  /** Since the list is kept newest first, adding a photo inserts it in place:
      after every photo at least as new, so a strictly newest photo goes first. */
  lemma AddPhotoInserts(prev: seq<ProgressPhoto>, p: ProgressPhoto)
    requires NewestFirst(prev)
    ensures AddedPhoto(prev, p) == InsertByDate(prev, p)
    ensures prev == [] || prev[0].date < p.date ==> AddedPhoto(prev, p) == [p] + prev
  {
    assert (prev + [p])[..|prev|] == prev;
    SortKeepsSorted(prev);
  }

  // ---------------------------------------------------------------------------
  // Completed exercises
  // ---------------------------------------------------------------------------

  /** `handleExerciseCompletion`: the log grows by one record at the end. */
  function WithCompletion(prev: seq<CompletedExercise>, exerciseId: string, now: int): (r: seq<CompletedExercise>)
    ensures |r| == |prev| + 1 && r[..|prev|] == prev
    ensures r[|prev|] == CompletedExercise(now, exerciseId)
  {
    prev + [CompletedExercise(now, exerciseId)]
  }

  // ---------------------------------------------------------------------------
  // The component's state
  // ---------------------------------------------------------------------------

  class AppState {
    var view: View
    var selectedExercise: Option<Exercise>
    var progressPhotos: seq<ProgressPhoto>
    var completedExercises: seq<CompletedExercise>
    var reminders: ReminderSettings
    /** The settings key of local storage. */
    var storage: Stored
    /** The notification module's timers. */
    const scheduler: Scheduler

    /** First render followed by the mount effect reading local storage. */
    constructor(stored: Stored, scheduler: Scheduler)
      ensures view == DashboardView && selectedExercise == None
      ensures progressPhotos == [] && completedExercises == []
      ensures reminders == Loaded(stored, DefaultReminders)
      ensures storage == stored && this.scheduler == scheduler
    {
      view := DashboardView;
      selectedExercise := None;
      progressPhotos := [];
      completedExercises := [];
      storage := stored;
      this.scheduler := scheduler;
      reminders := DefaultReminders;
      if stored.Parsed? {
        reminders := stored.settings;
      }
    }

    method HandleSetReminders(newReminders: ReminderSettings)
      modifies this
      ensures reminders == newReminders && storage == Saved(newReminders)
      ensures view == old(view) && selectedExercise == old(selectedExercise)
      ensures progressPhotos == old(progressPhotos) && completedExercises == old(completedExercises)
    {
      reminders := newReminders;
      storage := Parsed(newReminders);
    }

    /** The effect that runs whenever `reminders` changes; `now` is the time of
        day it runs at. */
    method SyncReminders(now: nat)
      requires TimesWellFormed(reminders) && now < DayMs
      modifies scheduler
      ensures scheduler.State() == Synced(old(scheduler.State()), reminders, now)
    {
      ghost var before := scheduler.State();
      if reminders.exercise.enabled {
        scheduler.Schedule("exercise", Title(ExerciseChannel), Body(ExerciseChannel), reminders.exercise.time, now);
      } else {
        scheduler.Cancel("exercise");
      }
      assert scheduler.State() == Applied(before, reminders, ExerciseChannel, now);
      if reminders.zen.enabled {
        scheduler.Schedule("zen", Title(ZenChannel), Body(ZenChannel), reminders.zen.time, now);
      } else {
        scheduler.Cancel("zen");
      }
    }

    method HandleSetView(newView: View)
      modifies this`view
      ensures view == newView
    {
      view := newView;
    }

    method HandleSelectExercise(exercise: Exercise)
      modifies this`selectedExercise, this`view
      ensures selectedExercise == Some(exercise) && view == ExerciseDetailView
      ensures Content() == DetailScreen(exercise)
    {
      selectedExercise := Some(exercise);
      HandleSetView(ExerciseDetailView);
    }

    method AddPhoto(photo: ProgressPhoto)
      modifies this`progressPhotos
      ensures progressPhotos == AddedPhoto(old(progressPhotos), photo)
    {
      progressPhotos := SortNewestFirst(progressPhotos + [photo]);
    }

    /** `now` stands for `new Date()`. */
    method HandleExerciseCompletion(exerciseId: string, now: int)
      modifies this`completedExercises
      ensures completedExercises == WithCompletion(old(completedExercises), exerciseId, now)
    {
      completedExercises := completedExercises + [CompletedExercise(now, exerciseId)];
    }

    function Content(): Screen
      reads this
    {
      RenderContent(view, selectedExercise)
    }
  }
}
