/** The progress screen: the photo record built from a capture, the selection
    of at most two photos to compare, and the seven-day activity summary.
    Instants are local milliseconds since the epoch; a calendar day is the
    floor of an instant divided by the length of a day. */
module ProgressTracker {
  import opened Base
  import opened Types
  import Notifications

  // ---------------------------------------------------------------------------
  // Capturing a photo
  // ---------------------------------------------------------------------------

  /** `handlePhotoTaken`: `idTime` and `dateTime` are the two `new Date()`
      reads made for the id and the date. */
  function CapturedPhoto(imageUrl: string, idTime: int, dateTime: int): (p: ProgressPhoto)
    ensures p.tags == [] && p.imageUrl == imageUrl
    ensures p.id == idTime && p.date == dateTime
  {
    ProgressPhoto(idTime, dateTime, imageUrl, [])
  }

  /** Captures at different instants get different ids. */
  lemma CapturesHaveDistinctIds(url1: string, t1: int, d1: int, url2: string, t2: int, d2: int)
    requires t1 != t2
    ensures CapturedPhoto(url1, t1, d1).id != CapturedPhoto(url2, t2, d2).id
  {
  }

  // ---------------------------------------------------------------------------
  // Choosing photos to compare
  // ---------------------------------------------------------------------------

  predicate Selected(prev: seq<ProgressPhoto>, id: int) {
    exists i :: 0 <= i < |prev| && prev[i].id == id
  }

  /** `toggleComparison`: deselect a selected photo; otherwise add it, dropping
      the older of two selections to make room. */
  function ToggleComparison(prev: seq<ProgressPhoto>, photo: ProgressPhoto): (r: seq<ProgressPhoto>)
    ensures Selected(prev, photo.id) ==> forall i :: 0 <= i < |r| ==> r[i].id != photo.id
    ensures Selected(prev, photo.id) ==>
      forall i :: 0 <= i < |prev| && prev[i].id != photo.id ==> prev[i] in r
    ensures !Selected(prev, photo.id) && |prev| < 2 ==> r == prev + [photo]
    ensures !Selected(prev, photo.id) && |prev| >= 2 ==> r == [prev[1], photo]
  {
    if Selected(prev, photo.id) then Filter(prev, (p: ProgressPhoto) => p.id != photo.id)
    else if |prev| < 2 then prev + [photo]
    else [prev[1], photo]
  }

  /** No id is selected twice. */
  ghost predicate DistinctIds(s: seq<ProgressPhoto>) {
    forall i, j :: 0 <= i < j < |s| ==> s[i].id != s[j].id
  }

  /** Deselecting keeps the other selections in their order. */
  lemma DeselectKeepsOrder(prev: seq<ProgressPhoto>, photo: ProgressPhoto)
    requires Selected(prev, photo.id)
    ensures IsSubsequence(ToggleComparison(prev, photo), prev)
    ensures |ToggleComparison(prev, photo)| < |prev|
  {
    FilterIsSubsequence(prev, (p: ProgressPhoto) => p.id != photo.id);
    var i :| 0 <= i < |prev| && prev[i].id == photo.id;
    var r := ToggleComparison(prev, photo);
    FilterShorter(prev, (p: ProgressPhoto) => p.id != photo.id, i);
  }

  /** A filter that rejects some element is shorter than its input. */
  lemma {:induction false} FilterShorter(s: seq<ProgressPhoto>, keep: ProgressPhoto -> bool, i: nat)
    requires i < |s| && !keep(s[i])
    ensures |Filter(s, keep)| < |s|
    decreases |s|
  {
    var init := s[..|s| - 1];
    if i < |s| - 1 {
      FilterShorter(init, keep, i);
    } else {
      assert Filter(s, keep) == Filter(init, keep);
    }
  }

  /** The selection never holds more than two photos nor the same id twice. */
  lemma {:induction false} SelectionInvariant(prev: seq<ProgressPhoto>, photo: ProgressPhoto)
    requires |prev| <= 2 && DistinctIds(prev)
    ensures |ToggleComparison(prev, photo)| <= 2
    ensures DistinctIds(ToggleComparison(prev, photo))
  {
    var r := ToggleComparison(prev, photo);
    if Selected(prev, photo.id) {
      FilterIsSubsequence(prev, (p: ProgressPhoto) => p.id != photo.id);
      SubsequenceKeepsDistinct(r, prev);
    } else if |prev| < 2 {
      forall i, j | 0 <= i < j < |r| ensures r[i].id != r[j].id {
        if j == |prev| {
          assert r[i] == prev[i];
        }
      }
    } else {
      assert r[0].id != r[1].id;
    }
  }

  lemma {:induction false} SubsequenceKeepsDistinct(s: seq<ProgressPhoto>, t: seq<ProgressPhoto>)
    requires IsSubsequence(s, t) && DistinctIds(t)
    ensures DistinctIds(s)
    ensures forall i :: 0 <= i < |s| ==> s[i] in t
    decreases |t|
  {
    if t != [] {
      assert DistinctIds(t[1..]) by {
        forall i, j | 0 <= i < j < |t[1..]| ensures t[1..][i].id != t[1..][j].id {
          assert t[1..][i] == t[i + 1] && t[1..][j] == t[j + 1];
        }
      }
      if s != [] && s[0] == t[0] && IsSubsequence(s[1..], t[1..]) {
        SubsequenceKeepsDistinct(s[1..], t[1..]);
        forall i, j | 0 <= i < j < |s| ensures s[i].id != s[j].id {
          assert s[j] == s[1..][j - 1];
          var k :| 0 <= k < |t[1..]| && t[1..][k] == s[j];
          assert t[k + 1] == s[j];
          if i == 0 {
            assert s[i] == t[0];
          } else {
            assert s[i] == s[1..][i - 1];
          }
        }
        forall i | 0 <= i < |s| ensures s[i] in t {
          if i > 0 {
            assert s[i] == s[1..][i - 1];
          }
        }
      } else {
        SubsequenceKeepsDistinct(s, t[1..]);
      }
    }
  }

  /** Adding a photo to a selection with room and removing it again gives the
      selection back. */
  lemma SelectThenDeselect(prev: seq<ProgressPhoto>, photo: ProgressPhoto)
    requires !Selected(prev, photo.id) && |prev| < 2
    ensures ToggleComparison(ToggleComparison(prev, photo), photo) == prev
  {
    var r := prev + [photo];
    assert r[|prev|].id == photo.id;
    var keep := (p: ProgressPhoto) => p.id != photo.id;
    FilterAppend(prev, photo, keep);
    FilterKeepsAll(prev, keep);
  }

  // ---------------------------------------------------------------------------
  // The seven-day summary
  // ---------------------------------------------------------------------------

  /** The calendar day of a local instant (`setHours(0, 0, 0, 0)`). */
  function DayOf(t: int): int {
    t / Notifications.DayMs
  }

  /** `getDay()`: 0 is Sunday; day 0 of the epoch was a Thursday. */
  function Weekday(day: int): (w: nat)
    ensures w < 7
  {
    (day + 4) % 7
  }

  const DayLabels: string := "DLMXJVS"

  /** One bar group of the chart: `date` is the weekday letter. */
  datatype DayCounts = DayCounts(date: char, exercises: nat, photos: nat)

  /** How many records fall on `day`. */
  function CountOn<T>(s: seq<T>, date: T -> int, day: int): nat {
    |Filter(s, (x: T) => DayOf(date(x)) == day)|
  }

  function Entry(completed: seq<CompletedExercise>, photos: seq<ProgressPhoto>, day: int): (e: DayCounts)
    ensures e.date in DayLabels && e.date == DayLabels[Weekday(day)]
    ensures e.exercises <= |completed| && e.photos <= |photos|
  {
    DayCounts(
      DayLabels[Weekday(day)],
      CountOn(completed, (e: CompletedExercise) => e.date, day),
      CountOn(photos, (p: ProgressPhoto) => p.date, day))
  }

  /** `chartData`: one entry per day, six days ago first and today last. */
  method ChartData(now: int, completed: seq<CompletedExercise>, photos: seq<ProgressPhoto>)
    returns (last7Days: seq<DayCounts>)
    ensures |last7Days| == 7
    ensures forall k :: 0 <= k < 7 ==> last7Days[k] == Entry(completed, photos, DayOf(now) - 6 + k)
  {
    var today := DayOf(now);
    last7Days := [];
    var i := 6;
    while i >= 0
      invariant -1 <= i <= 6
      invariant |last7Days| == 6 - i
      invariant forall k :: 0 <= k < |last7Days| ==> last7Days[k] == Entry(completed, photos, today - 6 + k)
    {
      var date := today - i;
      var exercisesOnDay := CountOn(completed, (e: CompletedExercise) => e.date, date);
      var photosOnDay := CountOn(photos, (p: ProgressPhoto) => p.date, date);
      last7Days := last7Days + [DayCounts(DayLabels[Weekday(date)], exercisesOnDay, photosOnDay)];
      i := i - 1;
    }
  }

  /** The records whose day lies in `[lo, lo + n)`. */
  function CountInWindow<T>(s: seq<T>, date: T -> int, lo: int, n: nat): nat {
    |Filter(s, (x: T) => lo <= DayOf(date(x)) < lo + n)|
  }

  /** The counts of `n` consecutive days, added up. */
  function SumOfDays<T>(s: seq<T>, date: T -> int, lo: int, n: nat): nat
    decreases n
  {
    if n == 0 then 0 else SumOfDays(s, date, lo, n - 1) + CountOn(s, date, lo + n - 1)
  }

  /** Every record falls on exactly one day: the counts of consecutive days add
      up to the number of records in those days. */
  lemma {:induction false} DaysPartitionWindow<T>(s: seq<T>, date: T -> int, lo: int, n: nat)
    ensures SumOfDays(s, date, lo, n) == CountInWindow(s, date, lo, n)
    decreases n
  {
    if n == 0 {
      FilterEmptyIff(s, (x: T) => lo <= DayOf(date(x)) < lo + 0);
    } else {
      DaysPartitionWindow(s, date, lo, n - 1);
      FilterCountSplit(s,
        (x: T) => lo <= DayOf(date(x)) < lo + (n - 1),
        (x: T) => DayOf(date(x)) == lo + n - 1,
        (x: T) => lo <= DayOf(date(x)) < lo + n);
    }
  }

  /** The chart counts each exercise and each photo of the last seven days
      exactly once, and nothing older or newer. */
  lemma ChartCountsTheWeek(now: int, completed: seq<CompletedExercise>, photos: seq<ProgressPhoto>)
    ensures SumOfDays(completed, (e: CompletedExercise) => e.date, DayOf(now) - 6, 7)
         == CountInWindow(completed, (e: CompletedExercise) => e.date, DayOf(now) - 6, 7)
    ensures SumOfDays(photos, (p: ProgressPhoto) => p.date, DayOf(now) - 6, 7)
         == CountInWindow(photos, (p: ProgressPhoto) => p.date, DayOf(now) - 6, 7)
  {
    DaysPartitionWindow(completed, (e: CompletedExercise) => e.date, DayOf(now) - 6, 7);
    DaysPartitionWindow(photos, (p: ProgressPhoto) => p.date, DayOf(now) - 6, 7);
  }

  /** Consecutive days carry consecutive weekday letters, Sunday 'D' following
      Saturday 'S'. */
  lemma WeekdaysAdvance(day: int)
    ensures Weekday(day + 1) == (Weekday(day) + 1) % 7
    ensures Weekday(day + 7) == Weekday(day)
    ensures DayLabels[Weekday(day)] == 'D' <==> Weekday(day) == 0
  {
  }
}
