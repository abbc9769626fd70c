/** The weight calculator: rounding to the 2.5 kg load increment and the
    target weight of an exercise from the one-rep maxima, the phase
    intensity and the last logged set. */
module Load {
  import opened Util
  import opened Model

  /** `w` is a whole number of 2.5 kg increments. */
  predicate OnIncrement(w: real)
  {
    (w / 2.5).Floor as real * 2.5 == w
  }

  /** Math.round(x / 2.5) * 2.5, where Math.round(y) is the floor of y + 1/2. */
  function Round2p5(x: real): (r: real)
    ensures OnIncrement(r)
    ensures x - 1.25 < r <= x + 1.25
  {
    (x / 2.5 + 0.5).Floor as real * 2.5
  }

  /** The floor of a whole number plus a fraction in [0, 1) is that number. */
  lemma FloorOfWholePlusFraction(k: int, f: real)
    requires 0.0 <= f < 1.0
    ensures (k as real + f).Floor == k
  {
  }

  lemma RoundMonotone(x: real, y: real)
    requires x <= y
    ensures Round2p5(x) <= Round2p5(y)
  {
    var a, b := x / 2.5 + 0.5, y / 2.5 + 0.5;
    assert a <= b;
    assert a.Floor <= b.Floor;
  }

  lemma RoundFixesIncrements(x: real)
    requires OnIncrement(x)
    ensures Round2p5(x) == x
  {
    var k := (x / 2.5).Floor;
    assert x / 2.5 == k as real;
    FloorOfWholePlusFraction(k, 0.5);
  }

  /** A value exactly half-way between two increments goes to the upper one,
      also below zero (half toward positive infinity, not away from zero). */
  lemma RoundHalfGoesUp(k: int)
    ensures Round2p5(k as real * 2.5 + 1.25) == (k + 1) as real * 2.5
  {
    assert (k as real * 2.5 + 1.25) / 2.5 + 0.5 == (k + 1) as real;
    FloorOfWholePlusFraction(k + 1, 0.0);
  }

  /** `onerm[lift] || 0`. */
  function BaseLoad(onerm: OneRepMax, lift: string): (w: real)
    ensures lift in onerm ==> w == onerm[lift]
    ensures lift !in onerm ==> w == 0.0
  {
    if lift in onerm then onerm[lift] else 0.0
  }

  /** The percentage model before the overload floor and the rounding:
      the base lift's 1RM times the exercise share times the phase intensity,
      or 0 when the base lift has no 1RM. */
  function PercentageTarget(ex: Exercise, intensity: real, onerm: OneRepMax): (t: real)
    ensures ex.percentOf !in onerm ==> t == 0.0
    ensures ex.percentOf in onerm ==> t == onerm[ex.percentOf] * ex.percent * intensity
  {
    BaseLoad(onerm, ex.percentOf) * ex.percent * intensity
  }

  /** The most recent logged set of an exercise, if it has one. */
  function LastLogged(history: Ledger, name: string): (e: Option<Entry>)
    ensures e.Some? <==> name in history && |history[name]| > 0
    ensures e.Some? ==> e.value == history[name][|history[name]| - 1]
  {
    if name in history && |history[name]| > 0 then Some(history[name][|history[name]| - 1]) else None
  }

  /** The unrounded target: the percentage model raised to 1.02 times the last logged weight. */
  function UnroundedTarget(ex: Exercise, intensity: real, onerm: OneRepMax, history: Ledger): (t: real)
    ensures t >= PercentageTarget(ex, intensity, onerm)
    ensures LastLogged(history, ex.name).None? ==> t == PercentageTarget(ex, intensity, onerm)
    ensures LastLogged(history, ex.name).Some? ==> t >= LastLogged(history, ex.name).value.weight * 1.02
    ensures LastLogged(history, ex.name).Some? ==>
      t == PercentageTarget(ex, intensity, onerm) || t == LastLogged(history, ex.name).value.weight * 1.02
  {
    var target := PercentageTarget(ex, intensity, onerm);
    match LastLogged(history, ex.name)
    case None => target
    case Some(last) => Max(target, last.weight * 1.02)
  }

  function ComputeWeight(ex: Exercise, intensity: real, onerm: OneRepMax, history: Ledger): (w: real)
    ensures OnIncrement(w)
    ensures UnroundedTarget(ex, intensity, onerm, history) - 1.25 < w <= UnroundedTarget(ex, intensity, onerm, history) + 1.25
  {
    Round2p5(UnroundedTarget(ex, intensity, onerm, history))
  }

  /** Without history the target is the rounded percentage model, within half an increment of it. */
  lemma ComputeWeightWithoutHistory(ex: Exercise, intensity: real, onerm: OneRepMax, history: Ledger)
    requires LastLogged(history, ex.name).None?
    ensures ComputeWeight(ex, intensity, onerm, history) == Round2p5(PercentageTarget(ex, intensity, onerm))
    ensures var t := PercentageTarget(ex, intensity, onerm);
      t - 1.25 < ComputeWeight(ex, intensity, onerm, history) <= t + 1.25
  {
    assert UnroundedTarget(ex, intensity, onerm, history) == PercentageTarget(ex, intensity, onerm);
  }

  /** A base lift without a one-rep max gives a zero target when there is no history. */
  lemma MissingBaseLiftGivesZero(ex: Exercise, intensity: real, onerm: OneRepMax, history: Ledger)
    requires ex.percentOf !in onerm && LastLogged(history, ex.name).None?
    ensures ComputeWeight(ex, intensity, onerm, history) == 0.0
  {
  }

  /** With history, the target is the larger of the rounded overload floor
      and the rounded percentage model (rounding commutes with the maximum). */
  lemma {:induction false} ComputeWeightOverloadFloor(ex: Exercise, intensity: real, onerm: OneRepMax, history: Ledger)
    requires LastLogged(history, ex.name).Some?
    ensures ComputeWeight(ex, intensity, onerm, history) >= Round2p5(LastLogged(history, ex.name).value.weight * 1.02)
    ensures ComputeWeight(ex, intensity, onerm, history) >= Round2p5(PercentageTarget(ex, intensity, onerm))
    ensures ComputeWeight(ex, intensity, onerm, history) ==
      Max(Round2p5(LastLogged(history, ex.name).value.weight * 1.02), Round2p5(PercentageTarget(ex, intensity, onerm)))
  {
    var t := UnroundedTarget(ex, intensity, onerm, history);
    RoundMonotone(LastLogged(history, ex.name).value.weight * 1.02, t);
    RoundMonotone(PercentageTarget(ex, intensity, onerm), t);
  }

  /** When the last logged weight is itself a non-negative whole number of
      increments, the new target never falls below it. */
  lemma {:induction false} OverloadKeepsIncrementWeight(ex: Exercise, intensity: real, onerm: OneRepMax, history: Ledger)
    requires LastLogged(history, ex.name).Some?
    requires var last := LastLogged(history, ex.name).value.weight; last >= 0.0 && OnIncrement(last)
    ensures ComputeWeight(ex, intensity, onerm, history) >= LastLogged(history, ex.name).value.weight
  {
    var last := LastLogged(history, ex.name).value.weight;
    ComputeWeightOverloadFloor(ex, intensity, onerm, history);
    RoundMonotone(last, last * 1.02);
    RoundFixesIncrements(last);
  }

  /** A last logged weight that is not on an increment can be undercut:
      1.02 * 11 = 11.22 rounds to 10. */
  lemma OverloadCanFallBelowOffIncrementWeight()
    ensures var ex := Exercise("Lunge", "Squat-Single Leg", 0.5, "Squat");
      var history := map["Lunge" := [Entry(11.0, 8, "2024-01-01")]];
      ComputeWeight(ex, 0.60, map[], history) == 10.0
  {
  }

  /** 1RM 100, 80 %, intensity 0.6: 48 rounds to 47.5. */
  lemma WorkedExampleNoHistory()
    ensures var ex := Exercise("Back Squat", "Squat-Double Leg", 0.8, "Squat");
      ComputeWeight(ex, 0.60, map["Squat" := 100.0], map[]) == 47.5
  {
  }

  /** Same exercise after a logged 50: the floor 51 beats 48 and rounds to 50. */
  lemma WorkedExampleWithHistory()
    ensures var ex := Exercise("Back Squat", "Squat-Double Leg", 0.8, "Squat");
      var history := map["Back Squat" := [Entry(50.0, 5, "2024-01-01")]];
      ComputeWeight(ex, 0.60, map["Squat" := 100.0], history) == 50.0
  {
  }
}
