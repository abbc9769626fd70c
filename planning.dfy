/** The plan assembler: phase rule lookup, one row per movement group in
    canonical order, and the per-row rules the editable plan applies
    (count clamping and the per-set resize done when a plan is rendered). */
module Planning {
  import opened Util
  import opened Model
  import opened Load
  import opened Selection

  /** `PHASE_RULES[phase] || PHASE_RULES["BeweegFase"]`. */
  function RuleFor(phase: string): (rule: PhaseRule)
    ensures rule.sets >= 1 && rule.reps >= 1 && 0.0 < rule.intensity <= 1.0
    ensures phase in PHASE_RULES ==> rule == PHASE_RULES[phase]
  {
    if phase in PHASE_RULES then PHASE_RULES[phase] else PHASE_RULES[DEFAULT_PHASE]
  }

  /** An unknown phase silently gets the BeweegFase rule: 3 sets of 10 at 60 %. */
  lemma UnknownPhaseFallsBack(phase: string)
    requires phase !in PHASE_RULES
    ensures RuleFor(phase) == PhaseRule(3, 10, 0.60)
  {
  }

  /** `groups.map(g => pickExerciseByMovement(catalog, g))`. */
  function GroupPicks(catalog: seq<Exercise>, groups: seq<string>): (picks: seq<Option<Exercise>>)
    ensures |picks| == |groups|
  {
    seq(|groups|, k requires 0 <= k < |groups| => PickExerciseByMovement(catalog, groups[k]))
  }

  /** `.filter(Boolean)`: the picks that are not null, in order. */
  function Present(picks: seq<Option<Exercise>>): (chosen: seq<Exercise>)
    ensures |chosen| <= |picks|
  {
    if picks == [] then []
    else
      var rest := Present(picks[1..]);
      match picks[0]
      case None => rest
      case Some(ex) => [ex] + rest
  }

  /** The position among the picks that element `i` of the filtered list comes from. */
  ghost function Origin(picks: seq<Option<Exercise>>, i: nat): (k: nat)
    requires i < |Present(picks)|
    ensures k < |picks| && picks[k] == Some(Present(picks)[i])
    decreases |picks|
  {
    var rest := Present(picks[1..]);
    match picks[0]
    case None => 1 + Origin(picks[1..], i)
    case Some(ex) =>
      assert Present(picks) == [ex] + rest;
      if i == 0 then 0 else 1 + Origin(picks[1..], i - 1)
  }

  /** Filtering keeps the order of the picks. */
  lemma {:induction false} OriginIncreasing(picks: seq<Option<Exercise>>, i: nat, j: nat)
    requires i < j < |Present(picks)|
    ensures Origin(picks, i) < Origin(picks, j)
    decreases |picks|
  {
    if picks[0].Some? && i > 0 {
      OriginIncreasing(picks[1..], i - 1, j - 1);
    } else if picks[0].None? {
      OriginIncreasing(picks[1..], i, j);
    }
  }

  /** Filtering drops no pick that is present. */
  lemma {:induction false} PresentKeeps(picks: seq<Option<Exercise>>, k: nat)
    requires k < |picks| && picks[k].Some?
    ensures picks[k].value in Present(picks)
    decreases |picks|
  {
    var rest := Present(picks[1..]);
    if k > 0 {
      PresentKeeps(picks[1..], k - 1);
      assert picks[1..][k - 1] == picks[k];
    }
    match picks[0]
    case None =>
    case Some(ex) => assert Present(picks) == [ex] + rest;
  }

  /** The exercises kept from the group picks, one per group that has one. */
  function SelectPerGroup(catalog: seq<Exercise>, groups: seq<string>): (chosen: seq<Exercise>)
    ensures |chosen| <= |groups|
  {
    Present(GroupPicks(catalog, groups))
  }

  /** Every chosen exercise is the pick of the group it came from. */
  lemma SelectedArePicks(catalog: seq<Exercise>, groups: seq<string>, i: nat)
    requires i < |SelectPerGroup(catalog, groups)|
    ensures var e := SelectPerGroup(catalog, groups)[i];
      var k := Origin(GroupPicks(catalog, groups), i);
      && groups[k] == e.movement
      && PickExerciseByMovement(catalog, e.movement) == Some(e)
  {
    var k := Origin(GroupPicks(catalog, groups), i);
    assert GroupPicks(catalog, groups)[k] == PickExerciseByMovement(catalog, groups[k]);
  }

  /** In a list without repeats, the position of an element is its index. */
  lemma {:induction false} IndexOfDistinct(groups: seq<string>, k: nat)
    requires Distinct(groups) && k < |groups|
    ensures IndexOf(groups, groups[k]) == k
  {
    var j := IndexOf(groups, groups[k]);
    assert groups[j] == groups[k];
  }

  /** With distinct groups, the chosen exercises follow the group order strictly. */
  lemma SelectionFollowsGroupOrder(catalog: seq<Exercise>, groups: seq<string>, i: nat, j: nat)
    requires Distinct(groups)
    requires i < j < |SelectPerGroup(catalog, groups)|
    ensures var chosen := SelectPerGroup(catalog, groups);
      IndexOf(groups, chosen[i].movement) < IndexOf(groups, chosen[j].movement)
  {
    var picks := GroupPicks(catalog, groups);
    SelectedArePicks(catalog, groups, i);
    SelectedArePicks(catalog, groups, j);
    IndexOfDistinct(groups, Origin(picks, i));
    IndexOfDistinct(groups, Origin(picks, j));
    OriginIncreasing(picks, i, j);
  }

  /** A listed group is represented exactly when the catalog has an exercise of that movement. */
  lemma SelectionCoversGroups(catalog: seq<Exercise>, groups: seq<string>, g: string)
    requires g in groups
    ensures var chosen := SelectPerGroup(catalog, groups);
      (exists i :: 0 <= i < |chosen| && chosen[i].movement == g) <==>
      (exists e :: e in catalog && e.movement == g)
  {
    var chosen := SelectPerGroup(catalog, groups);
    if exists i :: 0 <= i < |chosen| && chosen[i].movement == g {
      var i :| 0 <= i < |chosen| && chosen[i].movement == g;
      SelectedArePicks(catalog, groups, i);
    }
    if exists e :: e in catalog && e.movement == g {
      var picks := GroupPicks(catalog, groups);
      var k :| 0 <= k < |groups| && groups[k] == g;
      assert picks[k] == PickExerciseByMovement(catalog, g);
      PresentKeeps(picks, k);
      var i :| 0 <= i < |chosen| && chosen[i] == picks[k].value;
      assert chosen[i].movement == g;
    }
  }

  /** A fresh plan row: the rule's counts, the computed target, one empty input per set. */
  function NewItem(ex: Exercise, rule: PhaseRule, onerm: OneRepMax, history: Ledger): (p: PlanItem)
    requires rule.sets >= 0
    ensures p.name == ex.name && p.movement == ex.movement && p.base == ex.percentOf
    ensures p.sets == rule.sets && p.reps == rule.reps
    ensures p.targetWeight == ComputeWeight(ex, rule.intensity, onerm, history)
    ensures |p.setWeights| == rule.sets && forall s :: 0 <= s < |p.setWeights| ==> p.setWeights[s].None?
  {
    PlanItem(ex.name, ex.movement, ex.percentOf, rule.sets, rule.reps,
             ComputeWeight(ex, rule.intensity, onerm, history),
             seq(rule.sets, _ => None))
  }

  function GeneratePlan(catalog: seq<Exercise>, phase: string, onerm: OneRepMax, history: Ledger): (plan: seq<PlanItem>)
    ensures |plan| <= |GROUPS|
  {
    var rule := RuleFor(phase);
    var chosen := SelectPerGroup(catalog, GROUPS);
    seq(|chosen|, i requires 0 <= i < |chosen| => NewItem(chosen[i], rule, onerm, history))
  }

  /** Every row of a fresh plan carries the resolved rule's counts, the
      calculator's target for the group's picked exercise and one empty
      per-set input per set. */
  lemma GeneratedRows(catalog: seq<Exercise>, phase: string, onerm: OneRepMax, history: Ledger, i: nat)
    requires i < |GeneratePlan(catalog, phase, onerm, history)|
    ensures var p := GeneratePlan(catalog, phase, onerm, history)[i];
      var rule := RuleFor(phase);
      var pick := PickExerciseByMovement(catalog, p.movement);
      && p.movement in GROUPS
      && pick.Some? && p.name == pick.value.name && p.base == pick.value.percentOf
      && p.sets == rule.sets && p.reps == rule.reps
      && p.targetWeight == ComputeWeight(pick.value, rule.intensity, onerm, history)
      && OnIncrement(p.targetWeight)
      && |p.setWeights| == p.sets
      && (forall s :: 0 <= s < |p.setWeights| ==> p.setWeights[s].None?)
  {
    var chosen := SelectPerGroup(catalog, GROUPS);
    assert GeneratePlan(catalog, phase, onerm, history)[i] == NewItem(chosen[i], RuleFor(phase), onerm, history);
    SelectedArePicks(catalog, GROUPS, i);
  }

  lemma ChosenInGroupOrder(catalog: seq<Exercise>, i: nat, j: nat)
    requires i < j < |SelectPerGroup(catalog, GROUPS)|
    ensures var chosen := SelectPerGroup(catalog, GROUPS);
      IndexOf(GROUPS, chosen[i].movement) < IndexOf(GROUPS, chosen[j].movement)
  {
    TablesWellFormed();
    SelectionFollowsGroupOrder(catalog, GROUPS, i, j);
  }

  /** Rows appear in strictly increasing canonical group order, so no group appears twice. */
  lemma GeneratedPlanOrder(catalog: seq<Exercise>, phase: string, onerm: OneRepMax, history: Ledger)
    ensures var plan := GeneratePlan(catalog, phase, onerm, history);
      forall i, j :: 0 <= i < j < |plan| ==>
        IndexOf(GROUPS, plan[i].movement) < IndexOf(GROUPS, plan[j].movement)
  {
    var plan := GeneratePlan(catalog, phase, onerm, history);
    var chosen := SelectPerGroup(catalog, GROUPS);
    forall i, j | 0 <= i < j < |plan|
      ensures IndexOf(GROUPS, plan[i].movement) < IndexOf(GROUPS, plan[j].movement)
    {
      assert plan[i].movement == chosen[i].movement;
      assert plan[j].movement == chosen[j].movement;
      ChosenInGroupOrder(catalog, i, j);
    }
  }

  /** A canonical group has a row exactly when the catalog has an exercise of that movement. */
  lemma GeneratedPlanCoverage(catalog: seq<Exercise>, phase: string, onerm: OneRepMax, history: Ledger, g: string)
    requires g in GROUPS
    ensures var plan := GeneratePlan(catalog, phase, onerm, history);
      (exists i :: 0 <= i < |plan| && plan[i].movement == g) <==>
      (exists e :: e in catalog && e.movement == g)
  {
    var plan := GeneratePlan(catalog, phase, onerm, history);
    var chosen := SelectPerGroup(catalog, GROUPS);
    SelectionCoversGroups(catalog, GROUPS, g);
    if exists i :: 0 <= i < |chosen| && chosen[i].movement == g {
      var i :| 0 <= i < |chosen| && chosen[i].movement == g;
      assert plan[i].movement == g;
    }
    if exists i :: 0 <= i < |plan| && plan[i].movement == g {
      var i :| 0 <= i < |plan| && plan[i].movement == g;
      assert chosen[i].movement == g;
    }
  }

  /** `Math.max(1, parseInt(input, 10) || 1)`: NaN and 0 become 1, and so does anything below 1. */
  function ClampCount(parsed: Option<int>): (n: int)
    ensures n >= 1
    ensures parsed.Some? && parsed.value >= 1 ==> n == parsed.value
    ensures parsed.None? || parsed.value < 1 ==> n == 1
  {
    var v := if parsed.None? || parsed.value == 0 then 1 else parsed.value;
    if v >= 1 then v else 1
  }

  /** The number of per-set inputs a row gets when rendered. */
  function SlotCount(sets: int): (n: int)
    ensures n >= 1 && (sets >= 1 ==> n == sets)
  {
    ClampCount(Some(sets))
  }

  /** `Array.from({length: n}, (_, i) => arr[i] ?? targetWeight)`. */
  function Resized(arr: seq<Option<real>>, n: nat, targetWeight: real): (r: seq<Option<real>>)
    ensures |r| == n
    ensures forall i :: 0 <= i < n ==> r[i].Some?
  {
    seq(n, i requires 0 <= i < n => if i < |arr| && arr[i].Some? then arr[i] else Some(targetWeight))
  }

  /** A resized row has no empty slot: old values survive by position and the target fills the rest. */
  lemma ResizedSlots(arr: seq<Option<real>>, n: nat, targetWeight: real)
    ensures var r := Resized(arr, n, targetWeight);
      && |r| == n
      && (forall i :: 0 <= i < n ==> r[i].Some?)
      && (forall i :: 0 <= i < n && i < |arr| && arr[i].Some? ==> r[i] == arr[i])
      && (forall i :: 0 <= i < n && (i >= |arr| || arr[i].None?) ==> r[i] == Some(targetWeight))
  {
  }

  /** The render-time fix-up of one row: resize only when the length is off. */
  function NormalizeItem(p: PlanItem): (q: PlanItem)
    ensures |q.setWeights| == SlotCount(p.sets)
    ensures q.(setWeights := p.setWeights) == p
    ensures |p.setWeights| == SlotCount(p.sets) ==> q == p
    ensures |p.setWeights| != SlotCount(p.sets) ==>
      forall i :: 0 <= i < |q.setWeights| ==>
        q.setWeights[i] == (if i < |p.setWeights| && p.setWeights[i].Some? then p.setWeights[i] else Some(p.targetWeight))
  {
    var n := SlotCount(p.sets);
    if |p.setWeights| != n then p.(setWeights := Resized(p.setWeights, n, p.targetWeight)) else p
  }

  function NormalizedPlan(plan: seq<PlanItem>): (r: seq<PlanItem>)
    ensures |r| == |plan|
  {
    seq(|plan|, i requires 0 <= i < |plan| => NormalizeItem(plan[i]))
  }

  /** The invariant every edit keeps: positive counts and one per-set slot per set. */
  predicate WellFormed(p: PlanItem)
  {
    p.sets >= 1 && p.reps >= 1 && |p.setWeights| == p.sets
  }

  /** Rendering never changes a well-formed row, and re-rendering a row changes nothing more. */
  lemma NormalizeStable(p: PlanItem)
    ensures WellFormed(p) ==> NormalizeItem(p) == p
    ensures NormalizeItem(NormalizeItem(p)) == NormalizeItem(p)
    ensures p.sets >= 1 && p.reps >= 1 ==> WellFormed(NormalizeItem(p))
  {
  }

  /** A fresh plan is well formed, so rendering it keeps its empty per-set inputs. */
  lemma GeneratedPlanIsStable(catalog: seq<Exercise>, phase: string, onerm: OneRepMax, history: Ledger)
    ensures var plan := GeneratePlan(catalog, phase, onerm, history);
      (forall i :: 0 <= i < |plan| ==> WellFormed(plan[i])) && NormalizedPlan(plan) == plan
  {
    var plan := GeneratePlan(catalog, phase, onerm, history);
    forall i | 0 <= i < |plan|
      ensures WellFormed(plan[i]) && NormalizeItem(plan[i]) == plan[i]
    {
      GeneratedRows(catalog, phase, onerm, history, i);
      NormalizeStable(plan[i]);
    }
  }
}
