/** The entities of the planner and its fixed tables (base lifts, phase
    rules, movement groups and default one-rep maxima). */
module Model {
  import opened Util

  /** A catalog row: `percent` of the one-rep max of base lift `percentOf`. */
  datatype Exercise = Exercise(name: string, movement: string, percent: real, percentOf: string)

  datatype PhaseRule = PhaseRule(sets: int, reps: int, intensity: real)

  /** One logged set; the date is the ISO day string the browser supplies. */
  datatype Entry = Entry(weight: real, reps: int, date: string)

  /** Logged sets per exercise name, oldest first. */
  type Ledger = map<string, seq<Entry>>

  /** One-rep maximum per base lift. */
  type OneRepMax = map<string, real>

  /** A row of the editable plan; a `None` slot of `setWeights` is an empty per-set input. */
  datatype PlanItem = PlanItem(
    name: string,
    movement: string,
    base: string,
    sets: int,
    reps: int,
    targetWeight: real,
    setWeights: seq<Option<real>>)

  const BASES: seq<string> :=
    ["Squat", "Bench-Press", "Deadlift", "Military-Press", "Pull-Up", "Clean", "Snatch", "Bicep Curl"]

  const DEFAULT_PHASE: string := "BeweegFase"

  const PHASE_RULES: map<string, PhaseRule> := map[
    "BeweegFase" := PhaseRule(3, 10, 0.60),
    "BelastFase" := PhaseRule(4, 6, 0.75),
    "BeproefFase" := PhaseRule(5, 3, 0.85)]

  /** The canonical order of the plan's rows. */
  const GROUPS: seq<string> :=
    ["Squat-Double Leg", "Hinge-Double Leg", "Push-Horizontal", "Push-Vertical", "Pull-Horizontal", "Squat-Single Leg"]

  /** The built-in one-rep maxima: exactly one entry per base lift. */
  function DefaultOneRepMax(): (m: OneRepMax)
    ensures forall b :: b in m <==> b in BASES
    ensures forall b :: b in m ==> m[b] > 0.0
  {
    map["Bench-Press" := 80.0, "Squat" := 100.0, "Deadlift" := 120.0, "Military-Press" := 50.0,
        "Pull-Up" := 25.0, "Clean" := 70.0, "Snatch" := 50.0, "Bicep Curl" := 25.0]
  }

  lemma TablesWellFormed()
    ensures Distinct(BASES) && Distinct(GROUPS) && |GROUPS| == 6
    ensures DEFAULT_PHASE in PHASE_RULES
    ensures forall p :: p in PHASE_RULES ==>
      PHASE_RULES[p].sets >= 1 && PHASE_RULES[p].reps >= 1 && 0.0 < PHASE_RULES[p].intensity <= 1.0
  {
  }
}
