/** The zen space: the breathing guide's four-phase cycle, the size of its
    circle, the mode switch and the activities listed for a mode. */
module ZenSpace {
  import opened Base
  import opened Types

  datatype Phase = Inhala | Sosten | Exhala

  /** `cycle`: inhale, hold, exhale, hold. */
  const Cycle: seq<Phase> := [Inhala, Sosten, Exhala, Sosten]

  /** One interval step of the phase index. */
  function NextIndex(i: nat): (j: nat)
    ensures j < |Cycle|
    ensures i + 1 < |Cycle| ==> j == i + 1
    ensures i + 1 == |Cycle| ==> j == 0
  {
    (i + 1) % |Cycle|
  }

  /** The guide's state: the phase shown, whether it runs, and the index kept
      by the running interval. */
  datatype Guide = Guide(phase: Phase, isBreathing: bool, index: nat)

  const InitialGuide := Guide(Inhala, false, 0)

  /** The button: stopping keeps the phase; starting runs the effect afresh,
      whose index starts at 0, while the phase shown stays what it was. */
  function AfterToggle(g: Guide): (r: Guide)
    ensures r.isBreathing == !g.isBreathing && r.phase == g.phase
    ensures r.isBreathing ==> r.index == 0
    ensures !r.isBreathing ==> r.index == g.index
  {
    if g.isBreathing then g.(isBreathing := false) else Guide(g.phase, true, 0)
  }

  /** One interval: advance the index and show its phase. */
  function AfterInterval(g: Guide): (r: Guide)
    ensures r.isBreathing == g.isBreathing
    ensures r.index < |Cycle| && r.phase == Cycle[r.index]
    ensures r.index == (g.index + 1) % 4
  {
    var j := NextIndex(g.index);
    Guide(Cycle[j], g.isBreathing, j)
  }

  function Intervals(g: Guide, n: nat): Guide
    decreases n
  {
    if n == 0 then g else AfterInterval(Intervals(g, n - 1))
  }

  /** After `n` intervals of a run started with the button, the index is
      `n % 4` and, from the first interval on, the phase is that cycle entry:
      the first is hold ('Sostén'), and four intervals come back around. */
  lemma {:induction false} PhaseAfterIntervals(g: Guide, n: nat)
    requires !g.isBreathing
    ensures Intervals(AfterToggle(g), n).isBreathing
    ensures Intervals(AfterToggle(g), n).index == n % 4
    ensures n > 0 ==> Intervals(AfterToggle(g), n).phase == Cycle[n % 4]
    ensures n == 0 ==> Intervals(AfterToggle(g), n).phase == g.phase
    decreases n
  {
    if n > 0 {
      PhaseAfterIntervals(g, n - 1);
    }
  }

  /** Four intervals bring the index back to where it was; the phase shown is
      always one of the cycle's. */
  lemma FourIntervalsReturn(g: Guide)
    requires g.index < 4
    ensures Intervals(g, 4).index == g.index
    ensures forall n: nat :: n > 0 ==> Intervals(g, n).phase in Cycle
  {
    forall n: nat | n > 0 ensures Intervals(g, n).phase in Cycle {
      assert Intervals(g, n) == AfterInterval(Intervals(g, n - 1));
    }
  }

  /** `circleClass` */
  function CircleClass(isBreathing: bool, phase: Phase): (c: string)
    ensures c in ["scale-110", "scale-90", "scale-100"]
    ensures !isBreathing ==> c == "scale-100"
  {
    if isBreathing then
      if phase == Inhala then "scale-110" else if phase == Exhala then "scale-90" else "scale-100"
    else "scale-100"
  }

  /** The circle grows on inhaling and shrinks on exhaling while the guide
      runs, and otherwise keeps its size. */
  lemma CircleClassCases(isBreathing: bool, phase: Phase)
    ensures CircleClass(isBreathing, phase) == "scale-110" <==> isBreathing && phase == Inhala
    ensures CircleClass(isBreathing, phase) == "scale-90" <==> isBreathing && phase == Exhala
    ensures CircleClass(isBreathing, phase) == "scale-100" <==> !isBreathing || phase == Sosten
  {
  }

  /** The guide as the component keeps it. */
  class BreathingGuide {
    var phase: Phase
    var isBreathing: bool
    /** `currentPhaseIndex` of the interval currently running. */
    var index: nat

    function State(): Guide
      reads this
    {
      Guide(phase, isBreathing, index)
    }

    constructor()
      ensures State() == InitialGuide
    {
      phase, isBreathing, index := Inhala, false, 0;
    }

    /** The button, followed by the effect on `isBreathing`. */
    method Toggle()
      modifies this
      ensures State() == AfterToggle(old(State()))
    {
      isBreathing := !isBreathing;
      if isBreathing {
        index := 0;
      }
    }

    /** The interval callback; it only runs while the guide runs. */
    method Interval()
      requires isBreathing
      modifies this
      ensures State() == AfterInterval(old(State()))
    {
      index := (index + 1) % |Cycle|;
      phase := Cycle[index];
    }
  }

  /** The screen opens in breathing mode. */
  const InitialMode: ZenMode := Breathing

  /** The breathing guide is shown in breathing mode only. */
  predicate ShowsBreathingGuide(mode: ZenMode) {
    mode == Breathing
  }

  /** The screen opens on the breathing guide, which no other mode shows. */
  lemma OpensOnBreathingGuide()
    ensures ShowsBreathingGuide(InitialMode)
    ensures !ShowsBreathingGuide(Meditation)
  {
  }

  /** The activities listed for a mode. */
  function ActivitiesFor(activities: seq<ZenActivity>, mode: ZenMode): (r: seq<ZenActivity>)
    ensures forall i :: 0 <= i < |r| ==> r[i] in activities && r[i].mode == mode
    ensures forall i :: 0 <= i < |activities| && activities[i].mode == mode ==> activities[i] in r
  {
    Filter(activities, (a: ZenActivity) => a.mode == mode)
  }

  /** The list keeps the catalogue order, and the two modes split the
      catalogue between them. */
  lemma ActivitiesPartition(activities: seq<ZenActivity>)
    ensures IsSubsequence(ActivitiesFor(activities, Breathing), activities)
    ensures IsSubsequence(ActivitiesFor(activities, Meditation), activities)
    ensures |ActivitiesFor(activities, Breathing)| + |ActivitiesFor(activities, Meditation)| == |activities|
  {
    FilterIsSubsequence(activities, (a: ZenActivity) => a.mode == Breathing);
    FilterIsSubsequence(activities, (a: ZenActivity) => a.mode == Meditation);
    FilterCountSplit(activities,
      (a: ZenActivity) => a.mode == Breathing,
      (a: ZenActivity) => a.mode == Meditation,
      (a: ZenActivity) => true);
    FilterKeepsAll(activities, (a: ZenActivity) => true);
  }
}
