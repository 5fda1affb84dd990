/** The countdown of one exercise: seconds left in the current repetition,
    repetitions left, whether it runs and whether it has completed. One `Tick`
    is one run of the countdown effect (a second elapsing while time is left,
    or the immediate switch to the next repetition or to completion). */
module ExerciseDetail {
  import opened Base
  import opened Types

  datatype Countdown = Countdown(isActive: bool, timeLeft: int, repsLeft: int, isCompleted: bool)

  /** The state the screen opens with. */
  function Initial(ex: Exercise): (c: Countdown)
    ensures InBounds(c, ex)
    ensures AfterTick(c, ex) == Step(c, None)
  {
    Countdown(false, ex.duration, ex.reps, false)
  }

  /** Counters within their ranges; at least one repetition left whenever the
      exercise has any. */
  ghost predicate InBounds(c: Countdown, ex: Exercise) {
    && 0 <= c.timeLeft <= ex.duration
    && 0 <= c.repsLeft <= ex.reps
    && (ex.reps >= 1 ==> c.repsLeft >= 1)
  }

  /** The next state, and the id passed to `onComplete` if it was called. */
  datatype Step = Step(next: Countdown, completion: Option<string>)

  function AfterTick(c: Countdown, ex: Exercise): (s: Step)
    ensures !c.isActive ==> s == Step(c, None)
    ensures s.completion.Some? ==> s.completion == Some(ex.id) && s.next.isCompleted && !s.next.isActive
    ensures s.next.isCompleted ==> c.isCompleted || s.completion.Some?
    ensures c.isActive && c.timeLeft > 0 ==> s.next.timeLeft == c.timeLeft - 1 && s.next.repsLeft == c.repsLeft
    ensures c.isActive && c.timeLeft == 0 && c.repsLeft > 1 ==>
      s.next.repsLeft == c.repsLeft - 1 && s.next.timeLeft == ex.duration
  {
    if c.isActive && c.timeLeft > 0 then
      Step(c.(timeLeft := c.timeLeft - 1), None)
    else if c.isActive && c.timeLeft == 0 then
      if c.repsLeft > 1 then Step(c.(repsLeft := c.repsLeft - 1, timeLeft := ex.duration), None)
      else Step(c.(isActive := false, isCompleted := true), Some(ex.id))
    else
      Step(c, None)
  }

  /** `handleStartStop`: ignored once completed; pauses a running countdown
      keeping its counters; starts a stopped one from full counters. */
  function AfterStartStop(c: Countdown, ex: Exercise): (r: Countdown)
    ensures c.isCompleted ==> r == c
    ensures !c.isCompleted ==> r.isActive == !c.isActive && !r.isCompleted
    ensures !c.isCompleted && c.isActive ==> r.timeLeft == c.timeLeft && r.repsLeft == c.repsLeft
    ensures !c.isCompleted && !c.isActive ==> r.timeLeft == ex.duration && r.repsLeft == ex.reps
  {
    if c.isCompleted then c
    else if c.isActive then c.(isActive := false)
    else Countdown(true, ex.duration, ex.reps, false)
  }

  // ---------------------------------------------------------------------------
  // Properties
  // ---------------------------------------------------------------------------

  /** The bounds hold initially and are kept by every handler. */
  lemma BoundsInvariant(c: Countdown, ex: Exercise)
    requires InBounds(c, ex)
    ensures InBounds(Initial(ex), ex)
    ensures InBounds(AfterTick(c, ex).next, ex)
    ensures InBounds(AfterStartStop(c, ex), ex)
  {
  }

  /** `onComplete(exercise.id)` is called by a tick exactly when the last
      repetition has run out while active; that tick stops and completes. */
  lemma CompletionEvent(c: Countdown, ex: Exercise)
    ensures AfterTick(c, ex).completion.Some? <==> c.isActive && c.timeLeft == 0 && c.repsLeft <= 1
    ensures AfterTick(c, ex).completion.Some? ==>
      && AfterTick(c, ex).completion == Some(ex.id)
      && !AfterTick(c, ex).next.isActive && AfterTick(c, ex).next.isCompleted
    ensures !c.isActive ==> AfterTick(c, ex) == Step(c, None)
  {
  }

  /** While active, each tick either completes or strictly decreases
      (repsLeft, timeLeft) in lexicographic order. */
  lemma TickDecreasesLexicographically(c: Countdown, ex: Exercise)
    requires InBounds(c, ex) && c.isActive
    ensures var n := AfterTick(c, ex).next;
      n.isActive ==> n.repsLeft < c.repsLeft || (n.repsLeft == c.repsLeft && n.timeLeft < c.timeLeft)
    ensures !AfterTick(c, ex).next.isActive ==> AfterTick(c, ex).completion.Some?
  {
  }

  /** Ticks until completion of an active countdown. */
  function Remaining(c: Countdown, ex: Exercise): int {
    (c.repsLeft - 1) * (ex.duration + 1) + c.timeLeft + 1
  }

  /** Each tick of an active countdown uses up exactly one remaining tick, and
      the tick that uses up the last one is the completing tick. */
  lemma TickConsumesOne(c: Countdown, ex: Exercise)
    requires InBounds(c, ex) && c.isActive && ex.reps >= 1
    ensures Remaining(c, ex) >= 1
    ensures AfterTick(c, ex).completion.Some? <==> Remaining(c, ex) == 1
    ensures AfterTick(c, ex).next.isActive <==> Remaining(c, ex) > 1
    ensures AfterTick(c, ex).next.isActive ==>
      Remaining(AfterTick(c, ex).next, ex) == Remaining(c, ex) - 1
  {
    var d := ex.duration + 1;
    assert (c.repsLeft - 1) * d >= 0;
    if c.timeLeft == 0 && c.repsLeft > 1 {
      assert (c.repsLeft - 1) * d == (c.repsLeft - 2) * d + d;
    }
    if c.repsLeft == 1 {
      assert (c.repsLeft - 1) * d == 0;
    } else {
      assert (c.repsLeft - 1) * d >= d;
    }
  }

  datatype Run = Run(last: Countdown, completions: nat)

  /** `n` consecutive ticks, counting the calls of `onComplete`. */
  function Ticks(c: Countdown, ex: Exercise, n: nat): Run
    decreases n
  {
    if n == 0 then Run(c, 0)
    else
      var s := AfterTick(c, ex);
      var rest := Ticks(s.next, ex, n - 1);
      Run(rest.last, rest.completions + (if s.completion.Some? then 1 else 0))
  }

  /** An active countdown runs for exactly `Remaining` ticks: before that it is
      still active and nothing has completed; after that it is completed and
      `onComplete` has been called exactly once. */
  lemma {:induction false} RunsToCompletion(c: Countdown, ex: Exercise, k: nat)
    requires InBounds(c, ex) && c.isActive && ex.reps >= 1 && !c.isCompleted
    requires k <= Remaining(c, ex)
    ensures k < Remaining(c, ex) ==> Ticks(c, ex, k).last.isActive && Ticks(c, ex, k).completions == 0
    ensures k == Remaining(c, ex) ==>
      && Ticks(c, ex, k).completions == 1
      && Ticks(c, ex, k).last.isCompleted && !Ticks(c, ex, k).last.isActive
    decreases k
  {
    if k > 0 {
      TickConsumesOne(c, ex);
      var s := AfterTick(c, ex);
      if s.next.isActive {
        BoundsInvariant(c, ex);
        RunsToCompletion(s.next, ex, k - 1);
      } else {
        assert Ticks(s.next, ex, k - 1) == Run(s.next, 0);
      }
    }
  }

  /** Started from full counters, the countdown completes after exactly
      reps * (duration + 1) ticks, with one call of `onComplete`. */
  lemma StartedRunLength(ex: Exercise)
    requires ex.reps >= 1
    ensures var started := AfterStartStop(Initial(ex), ex);
      && Remaining(started, ex) == ex.reps * (ex.duration + 1)
      && Ticks(started, ex, ex.reps * (ex.duration + 1)).completions == 1
      && Ticks(started, ex, ex.reps * (ex.duration + 1)).last.isCompleted
  {
    var started := AfterStartStop(Initial(ex), ex);
    assert (ex.reps - 1) * (ex.duration + 1) + ex.duration + 1 == ex.reps * (ex.duration + 1);
    RunsToCompletion(started, ex, Remaining(started, ex));
  }

  /** Pausing and pressing start again restarts the exercise from full
      counters rather than resuming where it stopped. */
  lemma PauseThenStartRestarts(c: Countdown, ex: Exercise)
    requires c.isActive && !c.isCompleted
    ensures AfterStartStop(AfterStartStop(c, ex), ex) == Countdown(true, ex.duration, ex.reps, false)
  {
  }

  // ---------------------------------------------------------------------------
  // The component's state
  // ---------------------------------------------------------------------------

  class Session {
    const exercise: Exercise
    var isActive: bool
    var timeLeft: int
    var repsLeft: int
    var isCompleted: bool

    function State(): Countdown
      reads this
    {
      Countdown(isActive, timeLeft, repsLeft, isCompleted)
    }

    constructor(ex: Exercise)
      ensures exercise == ex && State() == Initial(ex)
    {
      exercise := ex;
      isActive, timeLeft, repsLeft, isCompleted := false, ex.duration, ex.reps, false;
    }

    /** `completeExercise` */
    method Complete() returns (completion: Option<string>)
      modifies this
      ensures State() == old(State()).(isActive := false, isCompleted := true)
      ensures completion == Some(exercise.id)
    {
      isActive := false;
      isCompleted := true;
      completion := Some(exercise.id);
    }

    method Tick() returns (completion: Option<string>)
      modifies this
      ensures Step(State(), completion) == AfterTick(old(State()), exercise)
    {
      completion := None;
      if isActive && timeLeft > 0 {
        timeLeft := timeLeft - 1;
      } else if isActive && timeLeft == 0 {
        if repsLeft > 1 {
          repsLeft := repsLeft - 1;
          timeLeft := exercise.duration;
        } else {
          completion := Complete();
        }
      }
    }

    method StartStop()
      modifies this
      ensures State() == AfterStartStop(old(State()), exercise)
    {
      if isCompleted {
        return;
      }
      if isActive {
        isActive := false;
      } else {
        repsLeft := exercise.reps;
        timeLeft := exercise.duration;
        isActive := true;
        isCompleted := false;
      }
    }

    /** `handleReset`: back to the opening state, whatever the current one. */
    method Reset()
      modifies this
      ensures State() == Initial(exercise)
    {
      isActive := false;
      isCompleted := false;
      repsLeft := exercise.reps;
      timeLeft := exercise.duration;
    }
  }
}
