/** The page's mutable state and the data effects of its event handlers:
    generating and rendering the plan, editing a row, logging a set and
    saving the one-rep maxima. Rendering itself is left out; only the
    changes it makes to the plan (the per-set resize) are kept. */
module Editor {
  import opened Util
  import opened Model
  import opened Planning
  import opened Progress

  class Session {
    var oneRepMax: OneRepMax
    var history: Ledger
    var plan: seq<PlanItem>

    /** Every row has positive counts and one per-set slot per set. */
    predicate PlanWellFormed()
      reads this
    {
      forall i :: 0 <= i < |plan| ==> WellFormed(plan[i])
    }

    /** Start-up with the stored maxima, ledger and plan; a non-empty stored
        plan is rendered at once, which resizes its per-set lists. */
    constructor (stored1RM: OneRepMax, storedHistory: Ledger, storedPlan: seq<PlanItem>)
      ensures oneRepMax == MergeOneRepMax(stored1RM)
      ensures history == storedHistory
      ensures plan == NormalizedPlan(storedPlan)
    {
      oneRepMax := MergeOneRepMax(stored1RM);
      history := storedHistory;
      plan := storedPlan;
      new;
      if |plan| > 0 {
        NormalizeAll();
      }
    }

    /** The per-set resize `renderPlanEditable` applies to every row in turn. */
    method NormalizeAll()
      modifies this
      ensures plan == NormalizedPlan(old(plan))
      ensures oneRepMax == old(oneRepMax) && history == old(history)
    {
      var i := 0;
      while i < |plan|
        invariant 0 <= i <= |plan| == |old(plan)|
        invariant forall j :: 0 <= j < i ==> plan[j] == NormalizeItem(old(plan)[j])
        invariant forall j :: i <= j < |plan| ==> plan[j] == old(plan)[j]
        invariant oneRepMax == old(oneRepMax) && history == old(history)
      {
        var p := plan[i];
        var n := SlotCount(p.sets);
        if |p.setWeights| != n {
          plan := plan[i := p.(setWeights := Resized(p.setWeights, n, p.targetWeight))];
        }
        i := i + 1;
      }
    }

    /** The Generate button: a fresh plan from the current maxima and ledger, then rendered. */
    method Generate(catalog: seq<Exercise>, phase: string)
      modifies this
      ensures plan == GeneratePlan(catalog, phase, oneRepMax, history)
      ensures PlanWellFormed()
      ensures oneRepMax == old(oneRepMax) && history == old(history)
    {
      plan := GeneratePlan(catalog, phase, oneRepMax, history);
      GeneratedPlanIsStable(catalog, phase, oneRepMax, history);
      NormalizeAll();
    }

    /** A change of a row's sets input: the clamped count, then a re-render. */
    method EditSets(idx: nat, parsed: Option<int>)
      requires idx < |plan|
      modifies this
      ensures plan == NormalizedPlan(old(plan)[idx := old(plan)[idx].(sets := ClampCount(parsed))])
      ensures plan[idx].sets >= 1 && |plan[idx].setWeights| == plan[idx].sets
      ensures old(PlanWellFormed()) ==> PlanWellFormed()
      ensures oneRepMax == old(oneRepMax) && history == old(history)
    {
      plan := plan[idx := plan[idx].(sets := ClampCount(parsed))];
      ghost var edited := plan;
      NormalizeAll();
      forall i | 0 <= i < |plan| ensures old(PlanWellFormed()) ==> WellFormed(plan[i]) {
        NormalizeStable(edited[i]);
      }
    }

    /** A change of a row's reps input: the clamped count, nothing else. */
    method EditReps(idx: nat, parsed: Option<int>)
      requires idx < |plan|
      modifies this
      ensures plan == old(plan)[idx := old(plan)[idx].(reps := ClampCount(parsed))]
      ensures plan[idx].reps >= 1
      ensures old(PlanWellFormed()) ==> PlanWellFormed()
      ensures oneRepMax == old(oneRepMax) && history == old(history)
    {
      plan := plan[idx := plan[idx].(reps := ClampCount(parsed))];
    }

    /** A change of a row's target input: kept as it was when the input is not a number. */
    method EditTarget(idx: nat, parsed: Option<real>)
      requires idx < |plan|
      modifies this
      ensures parsed.None? ==> plan == old(plan)
      ensures parsed.Some? ==> plan == old(plan)[idx := old(plan)[idx].(targetWeight := parsed.value)]
      ensures old(PlanWellFormed()) ==> PlanWellFormed()
      ensures oneRepMax == old(oneRepMax) && history == old(history)
    {
      var p := plan[idx];
      var target := if parsed.None? then p.targetWeight else parsed.value;
      plan := plan[idx := p.(targetWeight := target)];
    }

    /** A change of one per-set input: that slot becomes the number, or empty when it is not one. */
    method EditSetWeight(idx: nat, slot: nat, parsed: Option<real>)
      requires idx < |plan| && slot < |plan[idx].setWeights|
      modifies this
      ensures plan == old(plan)[idx := old(plan)[idx].(setWeights := old(plan)[idx].setWeights[slot := parsed])]
      ensures old(PlanWellFormed()) ==> PlanWellFormed()
      ensures oneRepMax == old(oneRepMax) && history == old(history)
    {
      var p := plan[idx];
      plan := plan[idx := p.(setWeights := p.setWeights[slot := parsed])];
    }

    /** The Log button of a row: a no-op unless both inputs parse. */
    method LogSet(idx: nat, weight: Option<real>, reps: Option<int>, date: string)
      requires idx < |plan|
      modifies this
      ensures history == Logged(old(history), old(plan)[idx].name, weight, reps, date)
      ensures plan == old(plan) && oneRepMax == old(oneRepMax)
    {
      if weight.None? || reps.None? {
        return;
      }
      var name := plan[idx].name;
      history := history[name := Prior(history, name) + [Entry(weight.value, reps.value, date)]];
    }

    /** The clear-history button, after the confirmation dialog. */
    method ClearHistory(confirmed: bool)
      modifies this
      ensures history == if confirmed then map[] else old(history)
      ensures plan == old(plan) && oneRepMax == old(oneRepMax)
    {
      if confirmed {
        history := map[];
      }
    }

    /** The Save button of the one-rep maxima: one input per base lift, in order. */
    method SaveOneRepMax(inputs: seq<Option<real>>)
      requires |inputs| == |BASES|
      modifies this
      ensures oneRepMax == SavedOneRepMax(old(oneRepMax), BASES, inputs)
      ensures plan == old(plan) && history == old(history)
    {
      var i := 0;
      while i < |BASES|
        invariant 0 <= i <= |BASES|
        invariant oneRepMax == SavedOneRepMax(old(oneRepMax), BASES[..i], inputs[..i])
        invariant plan == old(plan) && history == old(history)
      {
        SavedOneMore(old(oneRepMax), BASES, inputs, i);
        if inputs[i].Some? {
          oneRepMax := oneRepMax[BASES[i] := inputs[i].value];
        }
        i := i + 1;
      }
      assert BASES[..i] == BASES && inputs[..i] == inputs;
    }
  }
}
