/** The progression ledger and the one-rep-max map: what logging a set,
    loading the stored maxima and saving edited maxima do to the data. */
module Progress {
  import opened Util
  import opened Model
  import opened Load

  /** The list logged so far for `name` (`history[name] || []`). */
  function Prior(history: Ledger, name: string): (list: seq<Entry>)
    ensures name in history ==> list == history[name]
    ensures name !in history ==> list == []
    ensures |list| > 0 <==> LastLogged(history, name).Some?
  {
    if name in history then history[name] else []
  }

  /** The ledger after the Log button: unchanged unless both inputs parse,
      otherwise one entry appended to the exercise's list. */
  function Logged(history: Ledger, name: string, weight: Option<real>, reps: Option<int>, date: string): (h: Ledger)
    ensures weight.None? || reps.None? ==> h == history
    ensures h.Keys == if weight.None? || reps.None? then history.Keys else history.Keys + {name}
  {
    if weight.None? || reps.None? then history
    else history[name := Prior(history, name) + [Entry(weight.value, reps.value, date)]]
  }

  /** A parsed log grows the exercise's list by exactly one entry, last, and
      leaves earlier entries and every other exercise alone. */
  lemma LoggedAppendsOne(history: Ledger, name: string, weight: Option<real>, reps: Option<int>, date: string)
    requires weight.Some? && reps.Some?
    ensures var h := Logged(history, name, weight, reps, date);
      && name in h
      && |h[name]| == |Prior(history, name)| + 1
      && h[name][..|Prior(history, name)|] == Prior(history, name)
      && LastLogged(h, name) == Some(Entry(weight.value, reps.value, date))
      && (forall k :: k != name && k in history ==> k in h && h[k] == history[k])
  {
    var h := Logged(history, name, weight, reps, date);
    assert h[name][..|Prior(history, name)|] == Prior(history, name);
  }

  /** After logging weight w, the next generated target for that exercise is
      at least w * 1.02 rounded to the increment. */
  lemma LoggingRaisesNextTarget(ex: Exercise, intensity: real, onerm: OneRepMax, history: Ledger,
                                weight: Option<real>, reps: Option<int>, date: string)
    requires weight.Some? && reps.Some?
    ensures ComputeWeight(ex, intensity, onerm, Logged(history, ex.name, weight, reps, date))
            >= Round2p5(weight.value * 1.02)
  {
    LoggedAppendsOne(history, ex.name, weight, reps, date);
    ComputeWeightOverloadFloor(ex, intensity, onerm, Logged(history, ex.name, weight, reps, date));
  }

  /** `Object.assign(default1RM(), stored)`: stored values win, defaults fill the rest. */
  function MergeOneRepMax(stored: OneRepMax): (m: OneRepMax)
    ensures m.Keys == DefaultOneRepMax().Keys + stored.Keys
    ensures forall k :: k in stored ==> m[k] == stored[k]
    ensures forall k :: k in m && k !in stored ==> m[k] == DefaultOneRepMax()[k]
  {
    DefaultOneRepMax() + stored
  }

  /** After merging, every base lift has a maximum, so the calculator never
      falls back to 0 for an exercise based on one of the base lifts. */
  lemma MergedCoversBases(stored: OneRepMax, b: string)
    requires b in BASES
    ensures b in MergeOneRepMax(stored)
    ensures BaseLoad(MergeOneRepMax(stored), b) == if b in stored then stored[b] else DefaultOneRepMax()[b]
  {
  }

  /** The map after the Save button visits the first |bases| inputs in order,
      overwriting a lift only when its input parses. */
  function SavedOneRepMax(m: OneRepMax, bases: seq<string>, inputs: seq<Option<real>>): (r: OneRepMax)
    requires |bases| == |inputs|
    ensures r.Keys == m.Keys + set i | 0 <= i < |bases| && inputs[i].Some? :: bases[i]
    decreases |bases|
  {
    if bases == [] then m
    else
      var n := |bases| - 1;
      var before := SavedOneRepMax(m, bases[..n], inputs[..n]);
      match inputs[n]
      case None => before
      case Some(v) => before[bases[n] := v]
  }

  /** One more input of Save: the map so far, overwritten at that lift when the input parses. */
  lemma SavedOneMore(m: OneRepMax, bases: seq<string>, inputs: seq<Option<real>>, i: nat)
    requires |bases| == |inputs| && i < |bases|
    ensures var before := SavedOneRepMax(m, bases[..i], inputs[..i]);
      SavedOneRepMax(m, bases[..i + 1], inputs[..i + 1]) ==
        if inputs[i].Some? then before[bases[i] := inputs[i].value] else before
  {
    assert bases[..i + 1][..i] == bases[..i] && inputs[..i + 1][..i] == inputs[..i];
  }

  /** What Save leaves under one key: the parsed input for a lift that has
      one, the previous value otherwise. */
  lemma {:induction false} SavedOneRepMaxAt(m: OneRepMax, bases: seq<string>, inputs: seq<Option<real>>, k: string)
    requires |bases| == |inputs| && Distinct(bases)
    ensures var r := SavedOneRepMax(m, bases, inputs);
      && (forall i :: 0 <= i < |bases| && bases[i] == k && inputs[i].Some? ==> k in r && r[k] == inputs[i].value)
      && ((forall i :: 0 <= i < |bases| && bases[i] == k ==> inputs[i].None?) ==>
            (k in r <==> k in m) && (k in m ==> r[k] == m[k]))
    decreases |bases|
  {
    if bases != [] {
      var n := |bases| - 1;
      assert Distinct(bases[..n]) by {
        forall i, j | 0 <= i < j < n ensures bases[..n][i] != bases[..n][j] {
          assert bases[..n][i] == bases[i] && bases[..n][j] == bases[j];
        }
      }
      SavedOneRepMaxAt(m, bases[..n], inputs[..n], k);
      var before := SavedOneRepMax(m, bases[..n], inputs[..n]);
      var r := SavedOneRepMax(m, bases, inputs);
      forall i | 0 <= i < |bases| && bases[i] == k && inputs[i].Some?
        ensures k in r && r[k] == inputs[i].value
      {
        if i < n {
          assert bases[..n][i] == k && inputs[..n][i] == inputs[i];
          assert bases[n] != k;
        }
      }
      if forall i :: 0 <= i < |bases| && bases[i] == k ==> inputs[i].None? {
        forall i | 0 <= i < n && bases[..n][i] == k ensures inputs[..n][i].None? {
          assert bases[i] == k;
        }
      }
    }
  }

  /** The base lifts and the one-rep-max inputs are matched by position. */
  lemma SaveOverwritesParsedOnly(m: OneRepMax, inputs: seq<Option<real>>, i: nat)
    requires |inputs| == |BASES| && i < |BASES|
    ensures var r := SavedOneRepMax(m, BASES, inputs);
      && (inputs[i].Some? ==> BASES[i] in r && r[BASES[i]] == inputs[i].value)
      && (inputs[i].None? ==> (BASES[i] in r <==> BASES[i] in m) && (BASES[i] in m ==> r[BASES[i]] == m[BASES[i]]))
  {
    TablesWellFormed();
    SavedOneRepMaxAt(m, BASES, inputs, BASES[i]);
  }
}
