# LCHM Fitness planner — verified model of the plan and load rules

This project models the core of the LCHM Fitness page (`app.js`): a
periodised strength plan built from an exercise catalog, a table of training
phases and the lifter's one-rep maxima (1RM), with progressive overload from
the logged history. The model covers:

- **Weight calculator** (`load.dfy`, module `Load`). `Round2p5` rounds to
  the 2.5 kg load increment the way `Math.round(x / 2.5) * 2.5` does.
  `ComputeWeight` takes the base lift's 1RM (0 when it is missing) times the
  exercise percentage times the phase intensity. When the exercise has logged
  sets, it raises that value to at least 1.02 × the last logged weight, then
  rounds.
- **Exercise selector** (`selection.dfy`, module `Selection`). It filters the
  catalog by exact movement. It prefers the first entry whose name contains
  one of the seven canonical-lift keywords, ignoring case, and otherwise takes
  the first entry.
- **Plan assembler** (`planning.dfy`, module `Planning`). It resolves the
  phase rule, with `BeweegFase` as the fallback. It builds one row per
  canonical movement group that has an exercise, in canonical order. It also
  holds the row-level rules of the editable plan: counts clamped to at least
  1, and the per-set resize done when the plan is rendered.
- **Progression ledger and 1RM map** (`progress.dfy`, module `Progress`).
  Logging a set, overlaying the stored maxima on the defaults, and saving the
  edited maxima.
- **Page state** (`editor.dfy`, class `Editor.Session`). The maxima, the
  ledger and the plan are fields. Each event handler is a method that changes
  them in place. `NormalizeAll` and `SaveOneRepMax` are the source's loops,
  written as loops.
- `model.dfy` (module `Model`) holds the entities and the fixed tables
  (`BASES`, `PHASE_RULES`, `GROUPS`, the default maxima). `util.dfy` holds an
  option type, ASCII lower-casing, substring search and `IndexOf`.

Weights, percentages and intensities are `real`. `parseFloat` and `parseInt`
results are `Option` values, where `None` stands for NaN. Dates are opaque
strings. Plan generation is a function, so identical inputs give an
identical plan by construction.

Three behaviours of the code are easy to miss:

- `Math.round` rounds halves toward +∞ (app.js:45; `Load.RoundHalfGoesUp`:
  −1.25 goes to 0 and 1.25 goes to 2.5).
- A generated row's per-set list holds `sets` copies of **null**
  (app.js:137). Rendering keeps those nulls, because the
  list already has the right length (`Planning.GeneratedPlanIsStable`).
- The overload floor applies before rounding (app.js:122-124). The target can therefore end
  up below 1.02 × the last weight, and even below the last weight itself
  when that weight is not on a 2.5 increment
  (`Load.OverloadCanFallBelowOffIncrementWeight`: 11 → 10). When the last
  weight is a non-negative multiple of 2.5, the target never drops below it
  (`Load.OverloadKeepsIncrementWeight`).

## Model

| member | source | states |
|---|---|---|
| `Model.DefaultOneRepMax` | app.js:42-44 | The default map has exactly one positive entry per base lift |
| `Model.TablesWellFormed` | app.js:8-14 | The base lifts and the groups are distinct. There are 6 groups. The default phase exists. Every phase rule has sets ≥ 1, reps ≥ 1 and intensity in (0, 1] |
| `Load.Round2p5` | app.js:45 | The result is a whole number of 2.5 increments and lies in (x − 1.25, x + 1.25] |
| `Load.RoundMonotone` | app.js:45 | Rounding is monotone |
| `Load.RoundFixesIncrements` | app.js:45 | A weight already on an increment is left unchanged |
| `Load.RoundHalfGoesUp` | app.js:45 | A value exactly between two increments goes to the upper one, also below zero |
| `Load.BaseLoad` | app.js:117 | The base lift's 1RM when present, else 0 |
| `Load.LastLogged` | app.js:119-121 | Some entry exactly when the exercise has a non-empty list, and then it is the final element |
| `Load.PercentageTarget` | app.js:117-118 | The base lift's 1RM × the exercise percentage × the intensity, and 0 when the base lift has no 1RM |
| `Load.UnroundedTarget` | app.js:117-123 | Equal to the percentage target without history. With history it is the larger of the percentage target and 1.02 × the last weight: at least both, and equal to one of them |
| `Load.ComputeWeight` | app.js:116-125 | The result is on an increment and within 1.25 of the unrounded target |
| `Load.ComputeWeightWithoutHistory` | app.js:116-124 | Without history the result is the rounded 1RM × percent × intensity, within 1.25 of that product |
| `Load.MissingBaseLiftGivesZero` | app.js:117 | A missing base lift and no history give 0 |
| `Load.ComputeWeightOverloadFloor` | app.js:119-124 | With history the result is exactly max(round2p5(last × 1.02), round2p5(percentage target)), so it is at least each of them |
| `Load.OverloadKeepsIncrementWeight` | app.js:119-124 | A last weight ≥ 0 that is on an increment is never undercut |
| `Load.OverloadCanFallBelowOffIncrementWeight` | app.js:119-124 | A last weight of 11 with a zero percentage target gives 10 |
| `Load.WorkedExampleNoHistory` | app.js:116-125 | 1RM 100, 80 %, intensity 0.6 gives 47.5 |
| `Load.WorkedExampleWithHistory` | app.js:116-125 | The same exercise after a logged 50 gives 50 (the floor 51 rounds down) |
| `Selection.IsPriority` | app.js:112 | The case-insensitive keyword test; a name shorter than the shortest keyword never matches |
| `Selection.PriorityIgnoresCase` | app.js:112 | A name matches exactly when its lower-cased form matches |
| `Selection.OfMovement` | app.js:110 | The filtered list holds exactly the catalog entries of that movement, and no more of them than the catalog |
| `Selection.FirstPriority` | app.js:112 | Finds a keyword-matching entry of the list, or None exactly when no entry matches |
| `Selection.PickExerciseByMovement` | app.js:109-114 | None exactly when no entry has that movement. Otherwise a catalog entry of that movement |
| `Selection.FirstPriorityOfMovement` | app.js:110-112 | The find over the filtered list returns the first keyword-matching catalog entry of the movement |
| `Selection.OfMovementHead` | app.js:110-113 | The filtered list starts with the first catalog entry of the movement |
| `Selection.PickPrefersFirstKeywordMatch` | app.js:109-114 | If an entry of the movement matches a keyword, the pick is the first such entry in catalog order |
| `Selection.PickFallsBackToFirst` | app.js:109-114 | If no entry of the movement matches, the pick is the first entry of the movement |
| `Selection.KeywordMatchIgnoresCase` | app.js:112 | "Barbell ROW" and "back squat (high bar)" match the pattern |
| `Planning.RuleFor` | app.js:128 | A known phase gets its own rule. Every resolved rule has positive counts and intensity in (0, 1] |
| `Planning.UnknownPhaseFallsBack` | app.js:128 | An unknown phase gets BeweegFase: 3 sets, 10 reps, 0.60 |
| `Planning.GroupPicks` | app.js:129 | There is exactly one pick per group (the picks list is as long as the groups list); which pick sits where is stated by `SelectedArePicks` |
| `Planning.Present` | app.js:129 | `filter(Boolean)` keeps at most as many exercises as there are picks |
| `Planning.OriginIncreasing` | app.js:129 | The filter keeps the picks' order: later kept exercises come from later picks |
| `Planning.PresentKeeps` | app.js:129 | The filter drops no non-null pick |
| `Planning.SelectPerGroup` | app.js:129 | No more exercises are chosen than there are groups; that no group is chosen twice is `SelectionFollowsGroupOrder` |
| `Planning.SelectedArePicks` | app.js:129 | Each chosen exercise has the movement of the group it was picked for, and is the selector's pick for that movement |
| `Planning.SelectionFollowsGroupOrder` | app.js:129 | With distinct groups, chosen exercise i comes before chosen exercise j in group order whenever i < j |
| `Planning.SelectionCoversGroups` | app.js:129 | A listed group is represented exactly when the catalog has an exercise of that movement |
| `Planning.NewItem` | app.js:130-138 | A fresh row carries the exercise's name, movement and base lift, the rule's sets and reps, the calculator's target, and `sets` null per-set slots |
| `Planning.GeneratePlan` | app.js:127-139 | At most 6 rows |
| `Planning.GeneratedRows` | app.js:130-138 | Each row is the pick for a canonical group, with the rule's sets and reps. Its target is ComputeWeight at the rule's intensity, on an increment. Its per-set list has `sets` slots, all null |
| `Planning.GeneratedPlanOrder` | app.js:129 | Rows appear in strictly increasing GROUPS order, so no movement appears twice |
| `Planning.GeneratedPlanCoverage` | app.js:129 | A canonical group has a row exactly when the catalog has an exercise of that movement |
| `Planning.ClampCount` | app.js:193 | The result is ≥ 1. A parsed value ≥ 1 is kept. NaN, zero or a negative value gives 1 |
| `Planning.SlotCount` | app.js:168 | The slot count is ≥ 1 and equals `sets` when `sets` ≥ 1 |
| `Planning.Resized` | app.js:170 | The resized list has exactly n slots and none of them is null |
| `Planning.ResizedSlots` | app.js:170 | The resized list has length n and no null slot. Non-null old values are kept by position. Every other slot holds the target |
| `Planning.NormalizeItem` | app.js:167-171 | After rendering, the list length is the slot count and no other field changes. A row whose list already has that length is left as it is. Otherwise each slot keeps its old non-null value by position and the target fills the rest |
| `Planning.NormalizedPlan` | app.js:151-171 | Rendering keeps the number of rows |
| `Planning.NormalizeStable` | app.js:167-171 | A well-formed row is left alone. A second render changes nothing. A row with sets and reps ≥ 1 becomes well formed |
| `Planning.GeneratedPlanIsStable` | app.js:137 | Every generated row is well formed, so rendering a fresh plan leaves it unchanged |
| `Progress.Prior` | app.js:256 | The exercise's logged list, or empty when it has none; it is non-empty exactly when there is a last logged set |
| `Progress.Logged` | app.js:253-257 | An unparsable weight or reps leaves the ledger unchanged. Otherwise only the exercise's key can be added |
| `Progress.LoggedAppendsOne` | app.js:256-257 | The exercise's list grows by one. Earlier entries stay. The new entry is the last one. Other exercises are unchanged |
| `Progress.LoggingRaisesNextTarget` | app.js:253-257 | After logging weight w, ComputeWeight for that exercise is ≥ round2p5(w × 1.02) |
| `Progress.MergeOneRepMax` | app.js:282 | The keys are the defaults' plus the stored ones. Stored values win and defaults fill the rest |
| `Progress.MergedCoversBases` | app.js:282 | Every base lift has a 1RM after merging |
| `Progress.SavedOneRepMax` | app.js:285-288 | The saved map's keys are the old keys plus every lift whose input parses |
| `Progress.SavedOneMore` | app.js:285-288 | Each step of the save overwrites the current lift only when its input parses |
| `Progress.SavedOneRepMaxAt` | app.js:285-288 | A key with a parsed input gets that input. A key without one keeps its previous presence and value |
| `Progress.SaveOverwritesParsedOnly` | app.js:285-288 | Base lift i is overwritten exactly when input i parses |
| `Editor.Session.constructor` | app.js:282-305 | The maxima are the merged map and the ledger is the stored one. The stored plan is rendered: each row whose per-set list has the wrong length is resized, and every other row is kept |
| `Editor.Session.NormalizeAll` | app.js:167-171 | Every row becomes its rendered form. The maxima and the ledger are unchanged |
| `Editor.Session.Generate` | app.js:307-311 | The plan becomes GeneratePlan of the current maxima and ledger, and is well formed |
| `Editor.Session.EditSets` | app.js:192-197 | The row's sets become the clamped input and the plan is re-rendered. The row has sets ≥ 1 and that many slots. Well-formedness is kept |
| `Editor.Session.EditReps` | app.js:198 | Only the row's reps change, to the clamped input (≥ 1) |
| `Editor.Session.EditTarget` | app.js:199 | A non-numeric input leaves the plan unchanged. Otherwise only that row's target changes |
| `Editor.Session.EditSetWeight` | app.js:179-183 | Only that slot changes, to the number or to null |
| `Editor.Session.LogSet` | app.js:252-260 | The ledger becomes Logged(old ledger, row name, inputs, date). The plan and maxima are unchanged |
| `Editor.Session.ClearHistory` | app.js:314-319 | A confirmed clear empties the ledger. Nothing else changes |
| `Editor.Session.SaveOneRepMax` | app.js:284-291 | The maxima become the in-order overwrite by the parsed inputs. The plan and ledger are unchanged |

## Left out

- DOM rendering and event wiring: the HTML of `render1RM`, `renderExercises`, `renderPlanEditable` and `renderLog`, the `setTimeout` attachment of handlers, and `alert`/`confirm`. The confirmation is a `bool` parameter of `ClearHistory`. The only data effect of rendering, the per-set resize, is modelled.
- The exercise search/filter of `renderExercises` (app.js:85-107) only decides what is displayed.
- The log card pre-fills its weight input with the row's first per-set weight, or with the target when that slot is null or 0 (app.js:236, 245), and its reps input with the row's reps (app.js:246). `Session.LogSet` takes the parsed inputs as parameters, so these defaults are not modelled; a Log press without typing is the case where those parameters carry the pre-filled values.
- localStorage and its JSON fallbacks (app.js:35-40) are I/O. The stored maxima, ledger and plan are parameters of the `Session` constructor. The source's Generate handler re-reads storage (app.js:308). The model uses the session's in-memory maps instead, which hold the same values because every change is written back at once.
- `loadExcel` (app.js:53-74) is asynchronous fetch plus spreadsheet parsing by a foreign library. The catalog and the phase name are parameters.
- CSV export (app.js:47-51, 214-220, 266-269) depends on JavaScript number-to-string formatting and on browser Blob/URL APIs.
- IEEE-754 arithmetic. Weights, percentages and intensities are exact reals, so `1.02`, `0.6` and the like carry no float rounding error.
- The date of a logged set (`new Date().toISOString()`) comes from the clock. It is an opaque string parameter.
- JavaScript object keys inherited from the prototype are not modelled. For example, a phase named `toString` would not fall back to BeweegFase in the source.
- Stored plan rows are values of the `PlanItem` datatype. A row without `setWeights` (`p.setWeights || []`) is represented by an empty list. A non-integer stored `sets` (which `parseInt` would truncate) is outside the model.
- Plan rows are values, not shared objects. The identity of row objects captured by the handlers' closures is not modelled.
- Editor.Session.EditSets: the model gives a row any positive number of per-set slots. In the source a sets input from 2^32 up to 1e21 passes the clamp and is stored (app.js:193-195), but the re-render's `Array.from` (app.js:170) then throws a RangeError, on this render and again at every later load (app.js:303), which stops start-up before the Generate and Clear buttons are wired. For sets of 1e21 or more, `parseInt` (app.js:168) reads the exponent notation and gives a single slot. Both come from JavaScript's array-length limit and number formatting, which are outside the model's unbounded integers.
- `Session.EditSetWeight` requires the slot to exist, because the source only creates per-set inputs for existing slots.
