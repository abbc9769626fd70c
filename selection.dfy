/** The exercise selector: one representative exercise per movement group,
    preferring a canonical lift named by a fixed keyword list. */
module Selection {
  import opened Util
  import opened Model

  /** The alternatives of the case-insensitive keyword pattern, in pattern order. */
  const PRIORITY_NAMES: seq<string> :=
    ["Back Squat", "Front Squat", "Deadlift", "Bench Press", "Overhead Press", "Pull Ups", "Row"]

  /** The pattern matches somewhere in `name`, ignoring ASCII case. The
      keywords are ASCII, and a non-Unicode JavaScript pattern never folds a
      non-ASCII character onto an ASCII one, so ASCII folding is exact here. The shortest
      keyword, `Row`, has three letters, so no shorter name matches. */
  predicate IsPriority(name: string)
    ensures IsPriority(name) ==> |name| >= 3
  {
    exists kw :: kw in PRIORITY_NAMES && Contains(Lower(name), Lower(kw))
  }

  /** `exercises.filter(e => e.movement === movement)`. */
  function OfMovement(catalog: seq<Exercise>, movement: string): (list: seq<Exercise>)
    ensures |list| <= |catalog|
    ensures forall e :: e in list ==> e in catalog && e.movement == movement
    ensures forall e :: e in catalog && e.movement == movement ==> e in list
  {
    if catalog == [] then []
    else (if catalog[0].movement == movement then [catalog[0]] else []) + OfMovement(catalog[1..], movement)
  }

  /** `list.find(e => pattern.test(e.name))`. */
  function FirstPriority(list: seq<Exercise>): (r: Option<Exercise>)
    ensures r.Some? ==> r.value in list && IsPriority(r.value.name)
    ensures r.None? <==> forall e :: e in list ==> !IsPriority(e.name)
  {
    if list == [] then None
    else if IsPriority(list[0].name) then Some(list[0])
    else FirstPriority(list[1..])
  }

  function PickExerciseByMovement(catalog: seq<Exercise>, movement: string): (r: Option<Exercise>)
    ensures r.None? <==> forall e :: e in catalog ==> e.movement != movement
    ensures r.Some? ==> r.value in catalog && r.value.movement == movement
  {
    var list := OfMovement(catalog, movement);
    if |list| == 0 then None
    else match FirstPriority(list)
      case Some(e) => Some(e)
      case None => Some(list[0])
  }

  /** The first catalog entry of the movement that matches the keywords is
      the first match of the filtered list. */
  lemma {:induction false} FirstPriorityOfMovement(catalog: seq<Exercise>, movement: string, k: nat)
    requires k < |catalog| && catalog[k].movement == movement && IsPriority(catalog[k].name)
    requires forall j :: 0 <= j < k ==> !(catalog[j].movement == movement && IsPriority(catalog[j].name))
    ensures FirstPriority(OfMovement(catalog, movement)) == Some(catalog[k])
  {
    var rest := OfMovement(catalog[1..], movement);
    if k == 0 {
      assert OfMovement(catalog, movement) == [catalog[0]] + rest;
    } else {
      FirstPriorityOfMovement(catalog[1..], movement, k - 1);
      if catalog[0].movement == movement {
        assert OfMovement(catalog, movement) == [catalog[0]] + rest;
        assert ([catalog[0]] + rest)[1..] == rest;
      } else {
        assert OfMovement(catalog, movement) == rest;
      }
    }
  }

  /** The head of the filtered list is the first catalog entry of the movement. */
  lemma {:induction false} OfMovementHead(catalog: seq<Exercise>, movement: string, k: nat)
    requires k < |catalog| && catalog[k].movement == movement
    requires forall j :: 0 <= j < k ==> catalog[j].movement != movement
    ensures |OfMovement(catalog, movement)| > 0 && OfMovement(catalog, movement)[0] == catalog[k]
  {
    if k > 0 {
      OfMovementHead(catalog[1..], movement, k - 1);
      assert OfMovement(catalog, movement) == OfMovement(catalog[1..], movement);
    }
  }

  /** When some entry of the movement matches the keywords, the pick is the
      first such entry in catalog order. */
  lemma PickPrefersFirstKeywordMatch(catalog: seq<Exercise>, movement: string, k: nat)
    requires k < |catalog| && catalog[k].movement == movement && IsPriority(catalog[k].name)
    requires forall j :: 0 <= j < k ==> !(catalog[j].movement == movement && IsPriority(catalog[j].name))
    ensures PickExerciseByMovement(catalog, movement) == Some(catalog[k])
  {
    FirstPriorityOfMovement(catalog, movement, k);
  }

  /** When no entry of the movement matches the keywords, the pick is the
      first entry of the movement in catalog order. */
  lemma PickFallsBackToFirst(catalog: seq<Exercise>, movement: string, k: nat)
    requires k < |catalog| && catalog[k].movement == movement
    requires forall j :: 0 <= j < k ==> catalog[j].movement != movement
    requires forall e :: e in catalog && e.movement == movement ==> !IsPriority(e.name)
    ensures PickExerciseByMovement(catalog, movement) == Some(catalog[k])
  {
    OfMovementHead(catalog, movement, k);
  }

  /** The keyword test only sees the lower-cased name: a name and its
      lower-cased form are either both canonical lifts or neither is. */
  lemma PriorityIgnoresCase(name: string)
    ensures IsPriority(name) <==> IsPriority(Lower(name))
  {
    assert Lower(Lower(name)) == Lower(name);
  }

  /** The keyword test ignores case and finds the keyword inside a longer name. */
  lemma KeywordMatchIgnoresCase()
    ensures IsPriority("Barbell ROW")
    ensures IsPriority("back squat (high bar)")
  {
    assert Lower("Barbell ROW") == "barbell row" && Lower(PRIORITY_NAMES[6]) == "row";
    ContainsAt("barbell row", "row", 8);
    assert Lower("back squat (high bar)") == "back squat (high bar)" && Lower(PRIORITY_NAMES[0]) == "back squat";
    ContainsAt("back squat (high bar)", "back squat", 0);
  }
}
