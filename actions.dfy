/** The four moves of the agent, their fixed iteration order, their geometry,
    and the "first strict maximum" selection both solvers use to pick an action. */
module Actions {
  import opened Wrappers

  datatype Action = Up | Down | Left | Right

  /** The order in which both solvers visit the actions (and the insertion order of
      the Q-table rows), which decides ties. */
  const AllActions: seq<Action> := [Up, Down, Left, Right]

  /** Position of an action in AllActions. */
  function Index(a: Action): (i: nat)
    ensures i < |AllActions| && AllActions[i] == a
  {
    match a
    case Up => 0
    case Down => 1
    case Left => 2
    case Right => 3
  }

  /** Row and column change of a successful move. */
  function Offset(a: Action): (int, int)
  {
    match a
    case Up => (-1, 0)
    case Down => (1, 0)
    case Left => (0, -1)
    case Right => (0, 1)
  }

  /** The two directions the agent may slip into: left and right for a vertical
      move, up and down for a horizontal one. */
  function Perpendicular(a: Action): (p: (Action, Action))
    ensures p.0 != p.1
    ensures Offset(a).0 * Offset(p.0).0 + Offset(a).1 * Offset(p.0).1 == 0
    ensures Offset(a).0 * Offset(p.1).0 + Offset(a).1 * Offset(p.1).1 == 0
  {
    if a == Up || a == Down then (Left, Right) else (Up, Down)
  }

  /** The index of the first strict maximum among the defined values, scanning left
      to right and replacing the running best only on a strictly greater value (the
      running best starts at -infinity, so any defined value beats it; an undefined
      value, NaN in the original, never beats anything). None when no value is defined. */
  function ArgMax(vals: seq<Option<real>>): (r: Option<nat>)
    ensures r.Some? ==> r.value < |vals| && vals[r.value].Some?
    decreases |vals|
  {
    if |vals| == 0 then None
    else
      var k := ArgMax(vals[..|vals| - 1]);
      var last := vals[|vals| - 1];
      if last.Some? && (k.None? || last.value > vals[k.value].value) then Some(|vals| - 1) else k
  }

  /** ArgMax picks a defined value that no defined value exceeds and that every
      defined value before it is strictly below; it finds nothing exactly when no
      value is defined. */
  lemma {:induction false} ArgMaxIsFirstMax(vals: seq<Option<real>>)
    ensures var r := ArgMax(vals);
      && (r.Some? ==> forall j :: 0 <= j < |vals| && vals[j].Some? ==> vals[j].value <= vals[r.value].value)
      && (r.Some? ==> forall j :: 0 <= j < r.value && vals[j].Some? ==> vals[j].value < vals[r.value].value)
      && (r.None? <==> forall j :: 0 <= j < |vals| ==> vals[j].None?)
    decreases |vals|
  {
    if |vals| > 0 {
      var prefix := vals[..|vals| - 1];
      ArgMaxIsFirstMax(prefix);
      assert forall j :: 0 <= j < |prefix| ==> prefix[j] == vals[j];
    }
  }

  /** The running maximum the same scan ends with (None for -infinity). */
  function MaxValue(vals: seq<Option<real>>): Option<real>
  {
    match ArgMax(vals)
    case None => None
    case Some(k) => vals[k]
  }

  /** The scan's maximum is one of the values, no defined value exceeds it, and it
      is None exactly when no value is defined. */
  lemma MaxValueIsMax(vals: seq<Option<real>>)
    ensures var m := MaxValue(vals);
      && (m.Some? ==> exists j :: 0 <= j < |vals| && vals[j] == m)
      && (m.Some? ==> forall j :: 0 <= j < |vals| && vals[j].Some? ==> vals[j].value <= m.value)
      && (m.None? <==> forall j :: 0 <= j < |vals| ==> vals[j].None?)
  {
    ArgMaxIsFirstMax(vals);
  }

  /** One step of the scan: Python's max(best, v), where NaN never wins. */
  function MaxStep(best: Option<real>, v: Option<real>): Option<real>
  {
    if v.Some? && (best.None? || v.value > best.value) then v else best
  }

  /** Extending the scanned prefix by one value is one MaxStep. */
  lemma MaxValuePrefix(vals: seq<Option<real>>, i: nat)
    requires i < |vals|
    ensures MaxValue(vals[..i + 1]) == MaxStep(MaxValue(vals[..i]), vals[i])
    ensures ArgMax(vals[..i + 1]) ==
      (if vals[i].Some? && (MaxValue(vals[..i]).None? || vals[i].value > MaxValue(vals[..i]).value)
       then Some(i) else ArgMax(vals[..i]))
  {
    assert vals[..i + 1][..i] == vals[..i];
  }
}
