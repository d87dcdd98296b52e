/** The grid world: state numbering, rewards, deterministic moves, the noisy
    transition list and sampling from it (the GameEnv class of game_env.py). */
module Grid {
  import opened Wrappers
  import opened Actions

  /** Cell kinds of the configuration digits 0, 1, 2 and 3. */
  datatype Cell = Empty | Reward | Penalty | Wall

  datatype EnvError = EmptyGrid

  /** The immutable part of a GameEnv: the grid and its dimensions. */
  datatype World = World(grid: seq<seq<Cell>>, numRows: nat, numCols: nat)

  /** No row is shorter than the first one. The width is that of the first row and
      every cell read lies in a column below it, so cells a longer row has beyond
      that width are never read; a shorter row would be indexed past its end. */
  predicate NoShortRow(grid: seq<seq<Cell>>)
  {
    forall i :: 0 <= i < |grid| ==> |grid[i]| >= |grid[0]|
  }

  /** A non-empty grid with no row shorter than the first, whose dimensions are
      recorded in numRows and numCols. */
  predicate WellFormed(w: World)
  {
    && w.numRows == |w.grid| && w.numRows > 0
    && w.numCols == |w.grid[0]| && w.numCols > 0
    && NoShortRow(w.grid)
  }

  function NumStates(w: World): nat
  {
    w.numRows * w.numCols
  }

  /** The start state: the bottom-left corner. */
  function StartState(w: World): nat
    requires WellFormed(w)
  {
    (w.numRows - 1) * w.numCols
  }

  /** The check of GameEnv.__init__: an empty grid or an empty first row is rejected;
      any other grid is accepted, and it is well formed exactly when no row is
      shorter than the first. The start state of a well-formed world is its bottom-left cell. */
  function Create(grid: seq<seq<Cell>>): (r: Result<World, EnvError>)
    ensures r.Ok? <==> |grid| > 0 && |grid[0]| > 0
    ensures r.Ok? ==> r.value == World(grid, |grid|, |grid[0]|)
    ensures r.Ok? ==> (WellFormed(r.value) <==> NoShortRow(grid))
    ensures r.Ok? && NoShortRow(grid) ==>
      StartState(r.value) < NumStates(r.value) && StateToPosition(r.value, StartState(r.value)) == (|grid| - 1, 0)
  {
    if |grid| == 0 || |grid[0]| == 0 then Err(EmptyGrid)
    else
      var w := World(grid, |grid|, |grid[0]|);
      if NoShortRow(grid) then StartInBottomLeft(w); Ok(w) else Ok(w)
  }

  function StateToPosition(w: World, s: nat): (nat, nat)
    requires w.numCols > 0
  {
    (s / w.numCols, s % w.numCols)
  }

  function PositionToState(w: World, pos: (nat, nat)): nat
  {
    pos.0 * w.numCols + pos.1
  }

  /** Euclidean division is determined by quotient and remainder. */
  lemma DivModUnique(x: nat, d: nat, q: nat, r: nat)
    requires 0 <= r < d && x == q * d + r
    ensures x / d == q && x % d == r
  {
    var q' := x / d;
    if q' < q {
      MulLeq(q' + 1, q, d);
    } else if q' > q {
      MulLeq(q + 1, q', d);
    }
  }

  lemma MulLeq(a: nat, b: nat, d: nat)
    requires a <= b
    ensures a * d <= b * d
  {
  }

  /** position_to_state undoes state_to_position, and a state below rows*cols
      lies inside the grid. */
  lemma PositionRoundTrip(w: World, s: nat)
    requires w.numCols > 0
    ensures PositionToState(w, StateToPosition(w, s)) == s
    ensures StateToPosition(w, s).1 < w.numCols
    ensures s < NumStates(w) ==> StateToPosition(w, s).0 < w.numRows
  {
    if s < NumStates(w) && s / w.numCols >= w.numRows {
      MulLeq(w.numRows, s / w.numCols, w.numCols);
    }
  }

  /** state_to_position undoes position_to_state on positions inside the row width. */
  lemma StateRoundTrip(w: World, pos: (nat, nat))
    requires w.numCols > 0 && pos.1 < w.numCols
    ensures StateToPosition(w, PositionToState(w, pos)) == pos
  {
    DivModUnique(PositionToState(w, pos), w.numCols, pos.0, pos.1);
  }

  /** The start state is a valid state in column 0 of the last row. */
  lemma StartInBottomLeft(w: World)
    requires WellFormed(w)
    ensures StartState(w) < NumStates(w)
    ensures StateToPosition(w, StartState(w)) == (w.numRows - 1, 0)
  {
    StateRoundTrip(w, (w.numRows - 1, 0));
    assert NumStates(w) == (w.numRows - 1) * w.numCols + w.numCols;
  }

  /** The cell a state stands for. */
  function CellAt(w: World, s: nat): Cell
    requires WellFormed(w) && s < NumStates(w)
  {
    PositionRoundTrip(w, s);
    var (n, m) := StateToPosition(w, s);
    w.grid[n][m]
  }

  /** Reward of the cell entered; None for a wall, where the original returns NaN. */
  function RewardOf(w: World, s: nat): Option<real>
    requires WellFormed(w) && s < NumStates(w)
  {
    match CellAt(w, s)
    case Empty => Some(-0.04)
    case Reward => Some(1.0)
    case Penalty => Some(-1.0)
    case Wall => None
  }

  /** A reward or penalty cell ends an episode. */
  function IsTerminal(w: World, s: nat): bool
    requires WellFormed(w) && s < NumStates(w)
  {
    CellAt(w, s) == Reward || CellAt(w, s) == Penalty
  }

  /** Reward is defined exactly off walls, it is a step cost on empty cells, and the
      terminal cells are exactly those worth +1 or -1. */
  lemma RewardCases(w: World, s: nat)
    requires WellFormed(w) && s < NumStates(w)
    ensures RewardOf(w, s).None? <==> CellAt(w, s) == Wall
    ensures RewardOf(w, s) == Some(-0.04) <==> CellAt(w, s) == Empty
    ensures RewardOf(w, s) == Some(1.0) <==> CellAt(w, s) == Reward
    ensures RewardOf(w, s) == Some(-1.0) <==> CellAt(w, s) == Penalty
    ensures IsTerminal(w, s) <==> RewardOf(w, s) == Some(1.0) || RewardOf(w, s) == Some(-1.0)
  {
  }

  /** The deterministic move of get_next_state: the adjacent cell in the requested
      direction unless that leaves the grid or enters a wall. */
  function NextState(w: World, s: nat, a: Action): (t: nat)
    requires WellFormed(w) && s < NumStates(w)
    ensures t < NumStates(w)
  {
    PositionRoundTrip(w, s);
    var (n, m) := StateToPosition(w, s);
    if a == Up && n > 0 && w.grid[n - 1][m] != Wall then InGrid(w, n - 1, m); PositionToState(w, (n - 1, m))
    else if a == Down && n < w.numRows - 1 && w.grid[n + 1][m] != Wall then InGrid(w, n + 1, m); PositionToState(w, (n + 1, m))
    else if a == Left && m > 0 && w.grid[n][m - 1] != Wall then InGrid(w, n, m - 1); PositionToState(w, (n, m - 1))
    else if a == Right && m < w.numCols - 1 && w.grid[n][m + 1] != Wall then InGrid(w, n, m + 1); PositionToState(w, (n, m + 1))
    else s
  }

  /** The neighbouring state in direction a by plain geometry, if it is inside the grid. */
  function Neighbour(w: World, s: nat, a: Action): Option<nat>
    requires WellFormed(w) && s < NumStates(w)
  {
    var (n, m) := StateToPosition(w, s);
    var (r, c) := (n + Offset(a).0, m + Offset(a).1);
    if 0 <= r < w.numRows && 0 <= c < w.numCols then Some(r * w.numCols + c) else None
  }

  /** A move is open when the neighbour exists and is not a wall. */
  predicate Open(w: World, s: nat, a: Action)
    requires WellFormed(w) && s < NumStates(w)
  {
    var t := Neighbour(w, s, a);
    t.Some? && t.value < NumStates(w) && CellAt(w, t.value) != Wall
  }

  /** get_next_state moves to the geometric neighbour exactly when the move is open,
      and otherwise bounces back; either way the result is a state, and it is not a
      wall unless the agent stood on one. */
  lemma NextStateMeaning(w: World, s: nat, a: Action)
    requires WellFormed(w) && s < NumStates(w)
    ensures NextState(w, s, a) < NumStates(w)
    ensures Open(w, s, a) ==> NextState(w, s, a) == Neighbour(w, s, a).value
    ensures !Open(w, s, a) ==> NextState(w, s, a) == s
    ensures NextState(w, s, a) != s <==> Open(w, s, a)
    ensures NextState(w, s, a) != s ==> CellAt(w, NextState(w, s, a)) != Wall
  {
    PositionRoundTrip(w, s);
    var (n, m) := StateToPosition(w, s);
    var t := Neighbour(w, s, a);
    if t.Some? {
      var (r, c) := (n + Offset(a).0, m + Offset(a).1);
      InGrid(w, r, c);
      StateRoundTrip(w, (r, c));
      assert t.value != s by {
        if t.value == s { StateRoundTrip(w, (n, m)); }
      }
    }
    var ns := NextState(w, s, a);
    if ns != s {
      assert t.Some?;
    }
  }

  lemma InGrid(w: World, r: nat, c: nat)
    requires WellFormed(w) && r < w.numRows && c < w.numCols
    ensures r * w.numCols + c < NumStates(w)
  {
    MulLeq(r + 1, w.numRows, w.numCols);
  }

  /** 1e-12: a self-loop entry with less mass than this is dropped. */
  const StayTolerance: real := 0.000000000001

  /** The three sub-moves of an action with their probabilities: the intended
      direction 0.8 and each perpendicular direction 0.1. */
  function SubMoves(a: Action): seq<(Action, real)>
  {
    var p := Perpendicular(a);
    [(a, 0.8), (p.0, 0.1), (p.1, 0.1)]
  }

  /** Where each of `moves` takes the agent (get_next_state), with its probability. */
  function Outcomes(w: World, s: nat, moves: seq<(Action, real)>): (o: seq<(nat, real)>)
    requires WellFormed(w) && s < NumStates(w)
    ensures |o| == |moves|
    ensures forall i :: 0 <= i < |o| ==> o[i].0 < NumStates(w) && o[i].1 == moves[i].1
    decreases |moves|
  {
    if |moves| == 0 then []
    else [(NextState(w, s, moves[0].0), moves[0].1)] + Outcomes(w, s, moves[1..])
  }

  lemma {:induction false} OutcomeAt(w: World, s: nat, moves: seq<(Action, real)>, k: nat)
    requires WellFormed(w) && s < NumStates(w) && k < |moves|
    ensures Outcomes(w, s, moves)[k] == (NextState(w, s, moves[k].0), moves[k].1)
    decreases k
  {
    if k > 0 {
      OutcomeAt(w, s, moves[1..], k - 1);
    }
  }

  /** The outcomes of the three sub-moves of an action. */
  lemma OutcomesOfSubMoves(w: World, s: nat, a: Action)
    requires WellFormed(w) && s < NumStates(w)
    ensures var p := Perpendicular(a);
      Outcomes(w, s, SubMoves(a)) ==
        [(NextState(w, s, a), 0.8), (NextState(w, s, p.0), 0.1), (NextState(w, s, p.1), 0.1)]
  {
    var m := SubMoves(a);
    OutcomeAt(w, s, m, 0);
    OutcomeAt(w, s, m, 1);
    OutcomeAt(w, s, m, 2);
  }

  /** A sub-move bounces back to the same state. */
  predicate Blocked(w: World, s: nat, b: Action)
    requires WellFormed(w) && s < NumStates(w)
  {
    NextState(w, s, b) == s
  }

  /** Some sub-move of action a bounces back. */
  predicate AnyBlocked(w: World, s: nat, a: Action)
    requires WellFormed(w) && s < NumStates(w)
  {
    Blocked(w, s, a) || Blocked(w, s, Perpendicular(a).0) || Blocked(w, s, Perpendicular(a).1)
  }

  /** Total probability of the outcomes that bounce back to s. */
  function BlockedMass(s: nat, o: seq<(nat, real)>): real
    decreases |o|
  {
    if |o| == 0 then 0.0
    else BlockedMass(s, o[..|o| - 1]) + (if o[|o| - 1].0 == s then o[|o| - 1].1 else 0.0)
  }

  /** The outcomes that lead away from s, in order. */
  function Moved(s: nat, o: seq<(nat, real)>): seq<(nat, real)>
    decreases |o|
  {
    if |o| == 0 then []
    else Moved(s, o[..|o| - 1]) + (if o[|o| - 1].0 == s then [] else [o[|o| - 1]])
  }

  /** The list assembled from the outcomes: a self-loop entry carrying the mass of
      every outcome that bounces back, dropped when that mass is below the
      tolerance, followed by the outcomes that lead elsewhere. */
  function Layout(s: nat, o: seq<(nat, real)>): seq<(nat, real)>
  {
    var m := BlockedMass(s, o);
    if m < StayTolerance then Moved(s, o) else [(s, m)] + Moved(s, o)
  }

  /** The list of get_possible_next_states for action a in state s. */
  function Transitions(w: World, s: nat, a: Action): (ts: seq<(nat, real)>)
    requires WellFormed(w) && s < NumStates(w)
    ensures forall i :: 0 <= i < |ts| ==> ts[i].0 < NumStates(w)
  {
    var o := Outcomes(w, s, SubMoves(a));
    LayoutShape(s, o);
    Layout(s, o)
  }

  /** get_possible_next_states, building the list by appending and by rewriting its
      first entry in place. */
  method PossibleNextStates(w: World, s: nat, a: Action) returns (states: seq<(nat, real)>)
    requires WellFormed(w) && s < NumStates(w)
    ensures states == Transitions(w, s, a)
  {
    ghost var o := Outcomes(w, s, SubMoves(a));
    states := [(s, 0.0)];
    assert states == Tally(s, o[..0]);
    var next := NextState(w, s, a);
    OutcomeAt(w, s, SubMoves(a), 0);
    states := AddOutcome(s, states, next, 0.8, o, 0);
    var p := Perpendicular(a);
    var sides := [p.0, p.1];
    for i := 0 to 2
      invariant states == Tally(s, o[..i + 1])
    {
      next := NextState(w, s, sides[i]);
      OutcomeAt(w, s, SubMoves(a), i + 1);
      states := AddOutcome(s, states, next, 0.1, o, i + 1);
    }
    assert o[..3] == o;
    assert Transitions(w, s, a) == Layout(s, o);
    if states[0].1 < StayTolerance {
      states := states[1..];
    }
  }

  /** The list before the tolerance test: the self-loop entry with the blocked mass
      of the outcomes, then the outcomes that leave s. */
  function Tally(s: nat, o: seq<(nat, real)>): seq<(nat, real)>
  {
    [(s, BlockedMass(s, o))] + Moved(s, o)
  }

  /** One sub-move's effect on the list: a bounce adds its probability to the
      self-loop entry, any other destination is appended; with the first k
      outcomes tallied, this tallies outcome k. */
  method AddOutcome(s: nat, states: seq<(nat, real)>, next: nat, p: real,
                    ghost o: seq<(nat, real)>, ghost k: nat) returns (r: seq<(nat, real)>)
    requires k < |o| && o[k] == (next, p) && states == Tally(s, o[..k])
    ensures r == Tally(s, o[..k + 1])
  {
    CollectStep(s, o, k);
    if next == s {
      r := states[0 := (s, states[0].1 + p)];
    } else {
      r := states + [(next, p)];
    }
  }

  /** Taking one more outcome into account adds its mass or its entry. */
  lemma CollectStep(s: nat, o: seq<(nat, real)>, k: nat)
    requires k < |o|
    ensures BlockedMass(s, o[..k + 1]) == BlockedMass(s, o[..k]) + (if o[k].0 == s then o[k].1 else 0.0)
    ensures Moved(s, o[..k + 1]) == Moved(s, o[..k]) + (if o[k].0 == s then [] else [o[k]])
  {
    assert o[..k + 1][..k] == o[..k];
  }

  /** Sum of the first k probabilities. */
  function PrefixSum(ts: seq<(nat, real)>, k: nat): real
    requires k <= |ts|
  {
    if k == 0 then 0.0 else PrefixSum(ts, k - 1) + ts[k - 1].1
  }

  function Total(ts: seq<(nat, real)>): real
  {
    PrefixSum(ts, |ts|)
  }

  lemma {:induction false} PrefixSumOfPrefix(a: seq<(nat, real)>, b: seq<(nat, real)>, k: nat)
    requires k <= |a|
    ensures PrefixSum(a + b, k) == PrefixSum(a, k)
  {
    if k > 0 {
      PrefixSumOfPrefix(a, b, k - 1);
      assert (a + b)[k - 1] == a[k - 1];
    }
  }

  lemma {:induction false} PrefixSumConcat(a: seq<(nat, real)>, b: seq<(nat, real)>, k: nat)
    requires k <= |b|
    ensures PrefixSum(a + b, |a| + k) == Total(a) + PrefixSum(b, k)
  {
    if k == 0 {
      PrefixSumOfPrefix(a, b, |a|);
    } else {
      PrefixSumConcat(a, b, k - 1);
      assert (a + b)[|a| + k - 1] == b[k - 1];
    }
  }

  /** Probabilities add up over concatenation. */
  lemma TotalConcat(a: seq<(nat, real)>, b: seq<(nat, real)>)
    ensures Total(a + b) == Total(a) + Total(b)
  {
    PrefixSumConcat(a, b, |b|);
  }

  lemma TotalSingle(t: (nat, real))
    ensures Total([t]) == t.1
  {
    assert PrefixSum([t], 0) == 0.0;
  }

  /** Moved and BlockedMass on three outcomes written out. */
  lemma Collect3(s: nat, o: seq<(nat, real)>)
    requires |o| == 3
    ensures Moved(s, o) ==
      (if o[0].0 == s then [] else [o[0]]) + (if o[1].0 == s then [] else [o[1]])
      + (if o[2].0 == s then [] else [o[2]])
    ensures BlockedMass(s, o) ==
      (if o[0].0 == s then o[0].1 else 0.0) + (if o[1].0 == s then o[1].1 else 0.0)
      + (if o[2].0 == s then o[2].1 else 0.0)
  {
    assert o[..2][..1] == o[..1] && o[..1][..0] == [] && o[..3] == o;
    assert Moved(s, o[..1]) == (if o[0].0 == s then [] else [o[0]]);
    assert Moved(s, o[..2]) == Moved(s, o[..1]) + (if o[1].0 == s then [] else [o[1]]);
    assert BlockedMass(s, o[..1]) == (if o[0].0 == s then o[0].1 else 0.0);
    assert BlockedMass(s, o[..2]) == BlockedMass(s, o[..1]) + (if o[1].0 == s then o[1].1 else 0.0);
  }

  /** With probabilities 0.8, 0.1 and 0.1, the self-loop entry is present exactly
      when some outcome bounces back and then carries their mass; every other entry
      is one of the outcomes that leave s; without a bounce the list is the outcomes
      themselves; and the probabilities sum to 1. */
  lemma LayoutShape(s: nat, o: seq<(nat, real)>)
    requires |o| == 3 && o[0].1 == 0.8 && o[1].1 == 0.1 && o[2].1 == 0.1
    ensures var ts := Layout(s, o); var blocked := o[0].0 == s || o[1].0 == s || o[2].0 == s;
      && |ts| > 0 && (ts[0].0 == s <==> blocked)
      && (blocked ==> ts[0] == (s, BlockedMass(s, o)))
      && (forall i :: (if blocked then 1 else 0) <= i < |ts| ==>
            ts[i].0 != s && (ts[i] == o[0] || ts[i] == o[1] || ts[i] == o[2]))
      && (!blocked ==> ts == o)
      && Total(ts) == 1.0
  {
    Collect3(s, o);
    var x := if o[0].0 == s then [] else [o[0]];
    var y := if o[1].0 == s then [] else [o[1]];
    var z := if o[2].0 == s then [] else [o[2]];
    TotalConcat(x, y);
    TotalConcat(x + y, z);
    TotalSingle(o[0]);
    TotalSingle(o[1]);
    TotalSingle(o[2]);
    var m := BlockedMass(s, o);
    if m >= StayTolerance {
      TotalConcat([(s, m)], x + y + z);
      TotalSingle((s, m));
    }
    if !(o[0].0 == s || o[1].0 == s || o[2].0 == s) {
      assert x + y + z == o;
    }
  }

  /** The transition probabilities sum to exactly 1 (0.8 + 0.1 + 0.1). */
  lemma TransitionsSumToOne(w: World, s: nat, a: Action)
    requires WellFormed(w) && s < NumStates(w)
    ensures Total(Transitions(w, s, a)) == 1.0
  {
    LayoutShape(s, Outcomes(w, s, SubMoves(a)));
  }

  /** The self-loop entry, at index 0, is kept exactly when some sub-move is blocked
      and then carries the whole blocked mass; every other entry leads elsewhere with
      probability 0.8 (the intended move) or 0.1 (a perpendicular slip). */
  lemma TransitionsShape(w: World, s: nat, a: Action)
    requires WellFormed(w) && s < NumStates(w)
    ensures var ts := Transitions(w, s, a);
      |ts| > 0 && (ts[0].0 == s <==> AnyBlocked(w, s, a))
    ensures var ts := Transitions(w, s, a);
      AnyBlocked(w, s, a) ==> ts[0] == (s, BlockedMass(s, Outcomes(w, s, SubMoves(a))))
    ensures var ts := Transitions(w, s, a);
      forall i :: (if AnyBlocked(w, s, a) then 1 else 0) <= i < |ts| ==>
        ts[i].0 != s && (ts[i].1 == 0.8 || ts[i].1 == 0.1)
    ensures !AnyBlocked(w, s, a) ==> |Transitions(w, s, a)| == 3
  {
    var o := Outcomes(w, s, SubMoves(a));
    OutcomesOfSubMoves(w, s, a);
    LayoutShape(s, o);
  }

  /** The destinations are the intended move with 0.8 and the two perpendicular
      moves (left/right for up/down, up/down for left/right) with 0.1, plus the
      self-loop; off a wall, no destination is a wall. */
  lemma TransitionDestinations(w: World, s: nat, a: Action)
    requires WellFormed(w) && s < NumStates(w)
    ensures var ts := Transitions(w, s, a); var p := Perpendicular(a);
      forall i :: 0 <= i < |ts| && ts[i].0 != s ==>
        || ts[i] == (NextState(w, s, a), 0.8)
        || ts[i] == (NextState(w, s, p.0), 0.1)
        || ts[i] == (NextState(w, s, p.1), 0.1)
    ensures var ts := Transitions(w, s, a);
      forall i :: 0 <= i < |ts| && ts[i].0 != s ==> CellAt(w, ts[i].0) != Wall
  {
    var p := Perpendicular(a);
    var o := Outcomes(w, s, SubMoves(a));
    OutcomesOfSubMoves(w, s, a);
    LayoutShape(s, o);
    MoveAvoidsWalls(w, s, a);
    MoveAvoidsWalls(w, s, p.0);
    MoveAvoidsWalls(w, s, p.1);
  }

  /** A move that does not bounce ends on a cell that is not a wall. */
  lemma MoveAvoidsWalls(w: World, s: nat, b: Action)
    requires WellFormed(w) && s < NumStates(w)
    ensures NextState(w, s, b) != s ==> CellAt(w, NextState(w, s, b)) != Wall
  {
    NextStateMeaning(w, s, b);
  }

  /** The outcome of a draw r: the destination of the first entry, from index k on,
      whose running cumulative probability exceeds r, or the given state if none does. */
  function SampleFrom(s: nat, ts: seq<(nat, real)>, r: real, k: nat): nat
    requires k <= |ts|
    decreases |ts| - k
  {
    if k == |ts| then s
    else if r < PrefixSum(ts, k + 1) then ts[k].0
    else SampleFrom(s, ts, r, k + 1)
  }

  function Sample(s: nat, ts: seq<(nat, real)>, r: real): nat
  {
    SampleFrom(s, ts, r, 0)
  }

  /** draw_next_state with the random draw r passed in. */
  method DrawNextState(s: nat, ts: seq<(nat, real)>, r: real) returns (next: nat)
    ensures next == Sample(s, ts, r)
  {
    var cum := 0.0;
    for i := 0 to |ts|
      invariant cum == PrefixSum(ts, i)
      invariant Sample(s, ts, r) == SampleFrom(s, ts, r, i)
    {
      cum := cum + ts[i].1;
      if r < cum {
        return ts[i].0;
      }
    }
    return s;
  }

  lemma {:induction false} SampleSkip(s: nat, ts: seq<(nat, real)>, r: real, k: nat, i: nat)
    requires k <= i <= |ts|
    requires forall j :: k < j <= i ==> PrefixSum(ts, j) <= r
    ensures SampleFrom(s, ts, r, k) == SampleFrom(s, ts, r, i)
    decreases i - k
  {
    if k < i {
      SampleSkip(s, ts, r, k + 1, i);
    }
  }

  /** The draw selects the entry whose cumulative interval contains it: the first
      index whose running sum exceeds r. */
  lemma SampleFirstExceeding(s: nat, ts: seq<(nat, real)>, r: real, i: nat)
    requires i < |ts| && r < PrefixSum(ts, i + 1)
    requires forall j :: 0 < j <= i ==> PrefixSum(ts, j) <= r
    ensures Sample(s, ts, r) == ts[i].0
  {
    SampleSkip(s, ts, r, 0, i);
  }

  /** When no running sum exceeds r, the given state is returned. */
  lemma SampleFallBack(s: nat, ts: seq<(nat, real)>, r: real)
    requires forall j :: 0 < j <= |ts| ==> PrefixSum(ts, j) <= r
    ensures Sample(s, ts, r) == s
  {
    SampleSkip(s, ts, r, 0, |ts|);
  }

  /** The destination appears in the list. */
  predicate Listed(ts: seq<(nat, real)>, d: nat)
  {
    exists i :: 0 <= i < |ts| && ts[i].0 == d
  }

  lemma {:induction false} SampleFromListed(s: nat, ts: seq<(nat, real)>, r: real, k: nat)
    requires k <= |ts|
    ensures SampleFrom(s, ts, r, k) == s || Listed(ts, SampleFrom(s, ts, r, k))
    ensures k < |ts| && r < Total(ts) ==> Listed(ts, SampleFrom(s, ts, r, k))
    decreases |ts| - k
  {
    if k < |ts| {
      if r < PrefixSum(ts, k + 1) {
        assert ts[k].0 == SampleFrom(s, ts, r, k);
      } else {
        SampleFromListed(s, ts, r, k + 1);
      }
    }
  }

  /** The drawn state is a listed destination or the given state; it is a listed
      destination whenever the list is non-empty and the draw lies below its total
      probability. */
  lemma SampleListed(s: nat, ts: seq<(nat, real)>, r: real)
    ensures Sample(s, ts, r) == s || Listed(ts, Sample(s, ts, r))
    ensures |ts| > 0 && r < Total(ts) ==> Listed(ts, Sample(s, ts, r))
  {
    SampleFromListed(s, ts, r, 0);
  }

  /** A draw in [0, 1) from the transition list always lands on one of its entries,
      and from a non-wall state never on a wall. */
  lemma SampleTransitions(w: World, s: nat, a: Action, r: real)
    requires WellFormed(w) && s < NumStates(w)
    ensures Sample(s, Transitions(w, s, a), r) < NumStates(w)
    ensures r < 1.0 ==> Listed(Transitions(w, s, a), Sample(s, Transitions(w, s, a), r))
    ensures CellAt(w, s) != Wall ==> CellAt(w, Sample(s, Transitions(w, s, a), r)) != Wall
  {
    var ts := Transitions(w, s, a);
    TransitionsSumToOne(w, s, a);
    TransitionsShape(w, s, a);
    SampleListed(s, ts, r);
    TransitionDestinations(w, s, a);
  }

  /** The mutable part of GameEnv: the agent's current state. */
  class GameEnv {
    const world: World
    var state: nat

    constructor (world: World)
      requires WellFormed(world)
      ensures this.world == world && state == StartState(world)
    {
      this.world := world;
      state := (world.numRows - 1) * world.numCols;
    }

    /** Puts the agent back on the start state. */
    method Reset()
      requires WellFormed(world)
      modifies this
      ensures state == StartState(world)
    {
      state := (world.numRows - 1) * world.numCols;
    }
  }
}
