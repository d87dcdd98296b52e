/** Value iteration (value_iteration.py): synchronous Bellman backups over a copy of
    the value table, the delta accumulator and its stopping rule, and greedy policy
    extraction with the fixed action order as tie-break.

    The specification functions are stated over the grid's Mdp (module GridModel);
    the solver keeps a ghost Mdp tied to its grid by Models. */
module Planning {
  import opened Wrappers
  import opened Actions
  import opened Grid
  import opened GridModel

  /** The contribution p * (reward + gamma * value) of one destination. */
  function Weighted(p: real, reward: real, gamma: real, value: real): real
  {
    p * (reward + gamma * value)
  }

  /** Sum of p * (reward(d) + gamma * V[d]) over a transition list, accumulated left
      to right; None as soon as an entry's reward is undefined, where the original
      computes NaN. */
  function ExpectedReturn(m: Mdp, gamma: real, V: seq<real>, ts: seq<(nat, real)>): Option<real>
    requires |V| == |m.reward|
    requires forall i :: 0 <= i < |ts| ==> ts[i].0 < |m.reward|
    decreases |ts|
  {
    if |ts| == 0 then Some(0.0)
    else
      var acc := ExpectedReturn(m, gamma, V, ts[..|ts| - 1]);
      var (d, p) := ts[|ts| - 1];
      var r := m.reward[d];
      if acc.None? || r.None? then None else Some(acc.value + Weighted(p, r.value, gamma, V[d]))
  }

  /** Every destination of the list has a defined reward (none is a wall). */
  predicate Rewarded(m: Mdp, ts: seq<(nat, real)>)
    requires forall i :: 0 <= i < |ts| ==> ts[i].0 < |m.reward|
  {
    forall i :: 0 <= i < |ts| ==> m.reward[ts[i].0].Some?
  }

  /** The expected return is a number exactly when no destination is a wall. */
  lemma {:induction false} ExpectedReturnDefined(m: Mdp, gamma: real, V: seq<real>, ts: seq<(nat, real)>)
    requires |V| == |m.reward|
    requires forall i :: 0 <= i < |ts| ==> ts[i].0 < |m.reward|
    ensures ExpectedReturn(m, gamma, V, ts).Some? <==> Rewarded(m, ts)
    decreases |ts|
  {
    if |ts| > 0 {
      var prefix := ts[..|ts| - 1];
      ExpectedReturnDefined(m, gamma, V, prefix);
      assert forall i :: 0 <= i < |prefix| ==> prefix[i] == ts[i];
    }
  }

  /** The one-step lookahead of action a in state s against the table V. */
  function Lookahead(m: Mdp, gamma: real, V: seq<real>, s: nat, a: Action): Option<real>
    requires Closed(m) && |V| == |m.reward| && s < |m.reward|
  {
    ExpectedReturn(m, gamma, V, m.next[s][Index(a)])
  }

  /** The four lookaheads in the order up, down, left, right. */
  function Lookaheads(m: Mdp, gamma: real, V: seq<real>, s: nat): (l: seq<Option<real>>)
    requires Closed(m) && |V| == |m.reward| && s < |m.reward|
    ensures |l| == |AllActions|
    ensures forall a :: l[Index(a)] == Lookahead(m, gamma, V, s, a)
  {
    [Lookahead(m, gamma, V, s, Up), Lookahead(m, gamma, V, s, Down),
     Lookahead(m, gamma, V, s, Left), Lookahead(m, gamma, V, s, Right)]
  }

  /** Some action of s has no wall among its destinations. */
  predicate Backable(m: Mdp, s: nat)
    requires Closed(m) && s < |m.reward|
  {
    exists a :: Rewarded(m, m.next[s][Index(a)])
  }

  /** Every state, walls included, has a finite backup. */
  predicate AllBackable(m: Mdp)
    requires Closed(m)
  {
    forall s :: 0 <= s < |m.reward| ==> Backable(m, s)
  }

  /** From a cell that is not a wall every lookahead is a number. */
  lemma OpenCellBackable(w: World, m: Mdp, gamma: real, V: seq<real>, s: nat)
    requires WellFormed(w) && Models(w, m) && Closed(m)
    requires |V| == NumStates(w) && s < NumStates(w) && CellAt(w, s) != Wall
    ensures forall a :: Lookahead(m, gamma, V, s, a).Some?
    ensures Backable(m, s)
  {
    forall a ensures Rewarded(m, m.next[s][Index(a)]) && Lookahead(m, gamma, V, s, a).Some? {
      TransitionDestinations(w, s, a);
      var ts := Transitions(w, s, a);
      assert m.next[s][Index(a)] == ts;
      forall i | 0 <= i < |ts| ensures m.reward[ts[i].0].Some? {
        RewardCases(w, ts[i].0);
        assert m.reward[ts[i].0] == RewardOf(w, ts[i].0);
      }
      ExpectedReturnDefined(m, gamma, V, ts);
    }
    assert Rewarded(m, m.next[s][Index(Up)]);
  }

  /** A grid where the original's backup is -infinity: the wall in the top-left
      corner has the boundary above it and to its left, every action of it has a
      blocked sub-move, and so every lookahead includes the wall's own undefined
      reward. */
  lemma CornerWallNotBackable()
    ensures var w := World([[Wall, Empty], [Empty, Reward]], 2, 2);
      WellFormed(w) && Closed(MdpOf(w)) && !Backable(MdpOf(w), 0) && !AllBackable(MdpOf(w))
  {
    var w := World([[Wall, Empty], [Empty, Reward]], 2, 2);
    var m := MdpOf(w);
    MdpOfModels(w);
    assert CellAt(w, 0) == Wall;
    assert Blocked(w, 0, Up) && Blocked(w, 0, Left);
    forall a ensures !Rewarded(m, m.next[0][Index(a)]) {
      TransitionsShape(w, 0, a);
      RewardCases(w, 0);
      assert m.next[0][Index(a)] == Transitions(w, 0, a);
      assert m.reward[0] == RewardOf(w, 0);
    }
  }

  /** On the same grid a round keeps the corner wall's value, whatever the table,
      where the original stores -infinity. */
  lemma CornerWallKeepsValue(gamma: real, V: seq<real>)
    requires |V| == 4
    ensures var m := MdpOf(World([[Wall, Empty], [Empty, Reward]], 2, 2));
      Closed(m) && |V| == |m.reward| && Round(m, gamma, V)[0] == V[0]
  {
    var w := World([[Wall, Empty], [Empty, Reward]], 2, 2);
    CornerWallNotBackable();
    MdpOfModels(w);
    RoundAt(MdpOf(w), gamma, V, 0);
  }

  /** The backed-up value of s: the largest numeric lookahead (Python's running
      max starting from -infinity, which a NaN never replaces); None, standing for
      -infinity, when no lookahead is a number. */
  function Backup(m: Mdp, gamma: real, V: seq<real>, s: nat): (r: Option<real>)
    requires Closed(m) && |V| == |m.reward| && s < |m.reward|
    ensures r.Some? <==> Backable(m, s)
  {
    var l := Lookaheads(m, gamma, V, s);
    forall a ensures l[Index(a)].Some? <==> Rewarded(m, m.next[s][Index(a)]) {
      ExpectedReturnDefined(m, gamma, V, m.next[s][Index(a)]);
    }
    BestOfIsMaxValue(m, gamma, V, s, |AllActions|);
    assert l[..|AllActions|] == l;
    MaxValueIsMax(l);
    assert forall j :: 0 <= j < |l| ==> l[j] == l[Index(AllActions[j])];
    BestOf(m, gamma, V, s, |AllActions|)
  }

  /** max_v after the first i actions of the loop: -infinity (None) replaced by
      every lookahead that is a number and strictly greater. */
  function BestOf(m: Mdp, gamma: real, V: seq<real>, s: nat, i: nat): Option<real>
    requires Closed(m) && |V| == |m.reward| && s < |m.reward| && i <= |AllActions|
  {
    if i == 0 then None
    else MaxStep(BestOf(m, gamma, V, s, i - 1), Lookahead(m, gamma, V, s, AllActions[i - 1]))
  }

  /** The loop's running maximum is the scan maximum of the first i lookaheads. */
  lemma {:induction false} BestOfIsMaxValue(m: Mdp, gamma: real, V: seq<real>, s: nat, i: nat)
    requires Closed(m) && |V| == |m.reward| && s < |m.reward| && i <= |AllActions|
    ensures BestOf(m, gamma, V, s, i) == MaxValue(Lookaheads(m, gamma, V, s)[..i])
  {
    var l := Lookaheads(m, gamma, V, s);
    if i > 0 {
      BestOfIsMaxValue(m, gamma, V, s, i - 1);
      MaxValuePrefix(l, i - 1);
      assert l[i - 1] == Lookahead(m, gamma, V, s, AllActions[i - 1]);
    }
  }

  /** The backup is the value of some action's lookahead and no numeric lookahead
      exceeds it: the maximum over up, down, left and right. */
  lemma BackupIsBestLookahead(m: Mdp, gamma: real, V: seq<real>, s: nat)
    requires Closed(m) && |V| == |m.reward| && s < |m.reward| && Backable(m, s)
    ensures forall a :: Lookahead(m, gamma, V, s, a).Some? ==>
      Lookahead(m, gamma, V, s, a).value <= Backup(m, gamma, V, s).value
    ensures exists a :: Lookahead(m, gamma, V, s, a) == Backup(m, gamma, V, s)
  {
    var l := Lookaheads(m, gamma, V, s);
    var b := Backup(m, gamma, V, s);
    assert b.Some?;
    BestOfIsMaxValue(m, gamma, V, s, |AllActions|);
    assert l[..|AllActions|] == l;
    assert b == MaxValue(l);
    ArgMaxIsFirstMax(l);
    assert ArgMax(l).Some?;
    var k := ArgMax(l).value;
    assert Lookahead(m, gamma, V, s, AllActions[k]) == l[k];
  }

  /** The value a round stores for s: its backup, or its old value when no
      lookahead is a number. The original stores -infinity there and its loop
      then never stops; keeping the value is the corrected behaviour. */
  function NewValue(m: Mdp, gamma: real, V: seq<real>, s: nat): real
    requires Closed(m) && |V| == |m.reward| && s < |m.reward|
  {
    match Backup(m, gamma, V, s)
    case Some(v) => v
    case None => V[s]
  }

  /** One synchronous round: every new value is computed from the old table. */
  function Round(m: Mdp, gamma: real, V: seq<real>): (V': seq<real>)
    requires Closed(m) && |V| == |m.reward|
    ensures |V'| == |V|
  {
    RoundFrom(m, gamma, V, 0)
  }

  /** The backups of the states from s on, in state order. */
  function RoundFrom(m: Mdp, gamma: real, V: seq<real>, s: nat): (B: seq<real>)
    requires Closed(m) && |V| == |m.reward| && s <= |V|
    ensures |B| == |V| - s
    decreases |V| - s
  {
    if s == |V| then [] else [NewValue(m, gamma, V, s)] + RoundFrom(m, gamma, V, s + 1)
  }

  /** Entry i of the round from s is the new value of state s + i. */
  lemma {:induction false} RoundFromAt(m: Mdp, gamma: real, V: seq<real>, s: nat, i: nat)
    requires Closed(m) && |V| == |m.reward| && s + i < |V|
    ensures RoundFrom(m, gamma, V, s)[i] == NewValue(m, gamma, V, s + i)
    decreases i
  {
    var B := RoundFrom(m, gamma, V, s);
    assert B == [NewValue(m, gamma, V, s)] + RoundFrom(m, gamma, V, s + 1);
    if i > 0 {
      RoundFromAt(m, gamma, V, s + 1, i - 1);
      assert B[i] == RoundFrom(m, gamma, V, s + 1)[i - 1];
    }
  }

  /** Every entry of a round is the backup of its state computed from the old
      table, except that a state with no numeric lookahead keeps its old value. */
  lemma RoundAt(m: Mdp, gamma: real, V: seq<real>, i: nat)
    requires Closed(m) && |V| == |m.reward| && i < |V|
    ensures Backable(m, i) ==> Some(Round(m, gamma, V)[i]) == Backup(m, gamma, V, i)
    ensures !Backable(m, i) ==> Round(m, gamma, V)[i] == V[i]
  {
    RoundFromAt(m, gamma, V, 0, i);
  }

  /** Where every state has a numeric lookahead, the only models on which the
      original never stores -infinity, a round stores exactly the original's max_v
      for every state. */
  lemma RoundAsWritten(m: Mdp, gamma: real, V: seq<real>)
    requires Closed(m) && |V| == |m.reward| && AllBackable(m)
    ensures forall i :: 0 <= i < |V| ==> Some(Round(m, gamma, V)[i]) == Backup(m, gamma, V, i)
  {
    forall i | 0 <= i < |V| ensures Some(Round(m, gamma, V)[i]) == Backup(m, gamma, V, i) {
      RoundAt(m, gamma, V, i);
    }
  }

  /** The table after k rounds; it keeps one entry per state. */
  function Iterate(m: Mdp, gamma: real, V: seq<real>, k: nat): (r: seq<real>)
    requires Closed(m) && |V| == |m.reward|
    ensures |r| == |V|
  {
    if k == 0 then V else Round(m, gamma, Iterate(m, gamma, V, k - 1))
  }

  /** Starting one round later is the same as running one round more. */
  lemma {:induction false} IterateShift(m: Mdp, gamma: real, V: seq<real>, k: nat)
    requires Closed(m) && |V| == |m.reward|
    ensures Iterate(m, gamma, Round(m, gamma, V), k) == Iterate(m, gamma, V, k + 1)
  {
    if k > 0 {
      IterateShift(m, gamma, V, k - 1);
    }
  }

  function Abs(x: real): real
  {
    if x < 0.0 then -x else x
  }

  /** Sum over the states of |V[s] - V'[s]|, accumulated in state order. */
  function Delta(V: seq<real>, V': seq<real>): real
    requires |V| == |V'|
    decreases |V|
  {
    if |V| == 0 then 0.0
    else Delta(V[..|V| - 1], V'[..|V| - 1]) + Abs(V[|V| - 1] - V'[|V| - 1])
  }

  /** delta is never negative, and it is zero exactly when the round changed nothing
      (the table is a fixed point of the backup). */
  lemma {:induction false} DeltaZeroIffUnchanged(V: seq<real>, V': seq<real>)
    requires |V| == |V'|
    ensures Delta(V, V') >= 0.0
    ensures Delta(V, V') == 0.0 <==> V == V'
    decreases |V|
  {
    if |V| > 0 {
      var n := |V| - 1;
      DeltaZeroIffUnchanged(V[..n], V'[..n]);
      if V == V' {
        assert V[..n] == V'[..n];
      }
      if Delta(V, V') == 0.0 {
        assert V[..n] == V'[..n] && V[n] == V'[n];
        assert V == V[..n] + [V[n]] && V' == V'[..n] + [V'[n]];
      }
    }
  }

  /** Extending both prefixes by one state adds that state's change. */
  lemma DeltaStep(V: seq<real>, V': seq<real>, i: nat)
    requires |V| == |V'| && i < |V|
    ensures Delta(V[..i + 1], V'[..i + 1]) == Delta(V[..i], V'[..i]) + Abs(V[i] - V'[i])
  {
    assert V[..i + 1][..i] == V[..i] && V'[..i + 1][..i] == V'[..i];
  }

  /** The delta of round k (k >= 1). */
  function RoundDelta(m: Mdp, gamma: real, V: seq<real>, k: nat): real
    requires Closed(m) && |V| == |m.reward| && k >= 1
  {
    Delta(Iterate(m, gamma, V, k - 1), Iterate(m, gamma, V, k))
  }

  /** The stopping bound epsilon * (1 - gamma) / gamma. */
  function Threshold(epsilon: real, gamma: real): real
    requires gamma != 0.0
  {
    epsilon * (1.0 - gamma) / gamma
  }

  /** The while-loop of value_iteration on plain tables: at most fuel rounds from V,
      stopping after the first round whose delta is below thr. The result is the
      final table, the number of rounds run, the last delta (delta0 when none ran)
      and whether the stopping test fired. */
  function Converge(m: Mdp, gamma: real, thr: real, V: seq<real>, delta0: real, fuel: nat)
    : (r: (seq<real>, nat, real, bool))
    requires Closed(m) && |V| == |m.reward|
    decreases fuel
  {
    if fuel == 0 then (V, 0, delta0, false)
    else
      var V' := Round(m, gamma, V);
      var d := Delta(V, V');
      if d < thr then (V', 1, d, true)
      else Shift(Converge(m, gamma, thr, V', d, fuel - 1), 1)
  }

  /** Adds k to the round count of a result of Converge. */
  function Shift(r: (seq<real>, nat, real, bool), k: nat): (seq<real>, nat, real, bool)
  {
    (r.0, r.1 + k, r.2, r.3)
  }

  /** What the loop computes: the table after the rounds it ran; when it stopped on
      the test, a round count between 1 and fuel and that round's delta, which is
      below thr; otherwise all fuel rounds and the last delta; and in either case no
      earlier round whose delta was below thr. */
  lemma ConvergeMeaning(m: Mdp, gamma: real, thr: real, V: seq<real>, delta0: real, fuel: nat)
    requires Closed(m) && |V| == |m.reward|
    ensures var r := Converge(m, gamma, thr, V, delta0, fuel);
      && r.0 == Iterate(m, gamma, V, r.1)
      && (r.3 ==> 1 <= r.1 <= fuel && r.2 == RoundDelta(m, gamma, V, r.1) && r.2 < thr)
      && (!r.3 ==> r.1 == fuel && r.2 == (if fuel == 0 then delta0 else RoundDelta(m, gamma, V, fuel)))
      && (forall k :: 1 <= k <= r.1 && (k < r.1 || !r.3) ==> RoundDelta(m, gamma, V, k) >= thr)
  {
    ConvergeRounds(m, gamma, thr, V, delta0, fuel);
    ConvergeDelta(m, gamma, thr, V, delta0, fuel);
    ConvergeNoEarlierStop(m, gamma, thr, V, delta0, fuel);
  }

  /** The loop's table is the start table after the rounds it ran: between 1 and
      fuel when the test fired, exactly fuel otherwise. */
  lemma {:induction false} ConvergeRounds(m: Mdp, gamma: real, thr: real, V: seq<real>, delta0: real, fuel: nat)
    requires Closed(m) && |V| == |m.reward|
    ensures var r := Converge(m, gamma, thr, V, delta0, fuel);
      && r.0 == Iterate(m, gamma, V, r.1)
      && (r.3 ==> 1 <= r.1 <= fuel)
      && (!r.3 ==> r.1 == fuel)
    decreases fuel
  {
    if fuel > 0 {
      var V' := Round(m, gamma, V);
      var d := Delta(V, V');
      FirstRound(m, gamma, V);
      if d >= thr {
        var r' := Converge(m, gamma, thr, V', d, fuel - 1);
        assert Converge(m, gamma, thr, V, delta0, fuel) == Shift(r', 1);
        ConvergeRounds(m, gamma, thr, V', d, fuel - 1);
        IterateShift(m, gamma, V, r'.1);
      }
    }
  }

  /** The loop's last delta is the delta of its last round (delta0 when no round
      ran), and it is below thr when the test fired. */
  lemma {:induction false} ConvergeDelta(m: Mdp, gamma: real, thr: real, V: seq<real>, delta0: real, fuel: nat)
    requires Closed(m) && |V| == |m.reward|
    ensures var r := Converge(m, gamma, thr, V, delta0, fuel);
      && (r.3 ==> r.1 >= 1 && r.2 == RoundDelta(m, gamma, V, r.1) && r.2 < thr)
      && (!r.3 ==> r.2 == (if fuel == 0 then delta0 else RoundDelta(m, gamma, V, fuel)))
    decreases fuel
  {
    if fuel > 0 {
      var V' := Round(m, gamma, V);
      var d := Delta(V, V');
      FirstRound(m, gamma, V);
      if d >= thr {
        var r' := Converge(m, gamma, thr, V', d, fuel - 1);
        assert Converge(m, gamma, thr, V, delta0, fuel) == Shift(r', 1);
        ConvergeDelta(m, gamma, thr, V', d, fuel - 1);
        if r'.3 {
          RoundDeltaShift(m, gamma, V, r'.1);
        } else if fuel > 1 {
          RoundDeltaShift(m, gamma, V, fuel - 1);
        }
      }
    }
  }

  /** No round before the last one, nor the last one when the test did not fire,
      had a delta below thr. */
  lemma {:induction false} ConvergeNoEarlierStop(m: Mdp, gamma: real, thr: real, V: seq<real>, delta0: real, fuel: nat)
    requires Closed(m) && |V| == |m.reward|
    ensures var r := Converge(m, gamma, thr, V, delta0, fuel);
      forall k :: 1 <= k <= r.1 && (k < r.1 || !r.3) ==> RoundDelta(m, gamma, V, k) >= thr
    decreases fuel
  {
    if fuel > 0 {
      var V' := Round(m, gamma, V);
      var d := Delta(V, V');
      FirstRound(m, gamma, V);
      if d >= thr {
        var r' := Converge(m, gamma, thr, V', d, fuel - 1);
        assert Converge(m, gamma, thr, V, delta0, fuel) == Shift(r', 1);
        ConvergeNoEarlierStop(m, gamma, thr, V', d, fuel - 1);
        forall k | 1 <= k <= r'.1 + 1 && (k < r'.1 + 1 || !r'.3)
          ensures RoundDelta(m, gamma, V, k) >= thr
        {
          if k > 1 {
            RoundDeltaShift(m, gamma, V, k - 1);
          }
        }
      }
    }
  }

  /** The first round is one backup of the start table. */
  lemma FirstRound(m: Mdp, gamma: real, V: seq<real>)
    requires Closed(m) && |V| == |m.reward|
    ensures Iterate(m, gamma, V, 1) == Round(m, gamma, V)
    ensures RoundDelta(m, gamma, V, 1) == Delta(V, Round(m, gamma, V))
  {
  }

  /** Round k + 1 from V has the delta of round k from the table one round on. */
  lemma RoundDeltaShift(m: Mdp, gamma: real, V: seq<real>, k: nat)
    requires Closed(m) && |V| == |m.reward| && k >= 1
    ensures RoundDelta(m, gamma, Round(m, gamma, V), k) == RoundDelta(m, gamma, V, k + 1)
  {
    IterateShift(m, gamma, V, k - 1);
    IterateShift(m, gamma, V, k);
  }

  /** A table the backup leaves unchanged stops after one round with delta zero,
      whenever the threshold is positive. */
  lemma FixedPointStops(m: Mdp, gamma: real, thr: real, V: seq<real>, delta0: real, fuel: nat)
    requires Closed(m) && |V| == |m.reward|
    requires Round(m, gamma, V) == V && thr > 0.0 && fuel > 0
    ensures Converge(m, gamma, thr, V, delta0, fuel) == (V, 1, 0.0, true)
  {
    DeltaZeroIffUnchanged(V, Round(m, gamma, V));
  }

  /** The inner loop over a transition list: the lookahead of one action. */
  method EvalAction(w: World, ghost m: Mdp, gamma: real, V: seq<real>, s: nat, a: Action) returns (v: Option<real>)
    requires WellFormed(w) && Models(w, m) && Closed(m)
    requires |V| == NumStates(w) && s < NumStates(w)
    ensures v == Lookahead(m, gamma, V, s, a)
  {
    var nextStates := PossibleNextStates(w, s, a);
    assert nextStates == m.next[s][Index(a)];
    v := Some(0.0);
    for i := 0 to |nextStates|
      invariant v == ExpectedReturn(m, gamma, V, nextStates[..i])
    {
      var (d, p) := nextStates[i];
      var r := RewardOf(w, d);
      assert r == m.reward[d];
      assert nextStates[..i + 1][..i] == nextStates[..i];
      v := if v.None? || r.None? then None else Some(v.value + Weighted(p, r.value, gamma, V[d]));
    }
    assert nextStates[..|nextStates|] == nextStates;
  }

  /** The loop over the four actions keeping max_v = max(max_v, action_v). */
  method BestBackup(w: World, ghost m: Mdp, gamma: real, V: seq<real>, s: nat) returns (maxV: Option<real>)
    requires WellFormed(w) && Models(w, m) && Closed(m)
    requires |V| == NumStates(w) && s < NumStates(w)
    ensures maxV == Backup(m, gamma, V, s)
  {
    maxV := None;
    for i := 0 to |AllActions|
      invariant maxV == BestOf(m, gamma, V, s, i)
    {
      var actionV := EvalAction(w, m, gamma, V, s, AllActions[i]);
      if actionV.Some? && (maxV.None? || actionV.value > maxV.value) {
        maxV := actionV;
      }
    }
  }

  /** The action compute_policy records for state s: the first action whose
      lookahead is a strict maximum, or None when every lookahead is NaN (the
      policy entry is then left as it was). */
  function Greedy(m: Mdp, gamma: real, V: seq<real>, s: nat): Option<Action>
    requires Closed(m) && |V| == |m.reward| && s < |m.reward|
  {
    match ArgMax(Lookaheads(m, gamma, V, s))
    case None => None
    case Some(k) => Some(AllActions[k])
  }

  /** A policy action exists exactly for backable states; it attains the backed-up
      value, no action does better, and every action before it does strictly worse. */
  lemma GreedyIsBest(m: Mdp, gamma: real, V: seq<real>, s: nat)
    requires Closed(m) && |V| == |m.reward| && s < |m.reward|
    ensures Greedy(m, gamma, V, s).Some? <==> Backable(m, s)
    ensures Greedy(m, gamma, V, s).Some? ==>
      var a := Greedy(m, gamma, V, s).value;
      && Lookahead(m, gamma, V, s, a) == Backup(m, gamma, V, s)
      && (forall b :: Lookahead(m, gamma, V, s, b).Some? ==>
            Lookahead(m, gamma, V, s, b).value <= Lookahead(m, gamma, V, s, a).value)
      && (forall b :: Index(b) < Index(a) && Lookahead(m, gamma, V, s, b).Some? ==>
            Lookahead(m, gamma, V, s, b).value < Lookahead(m, gamma, V, s, a).value)
  {
    var l := Lookaheads(m, gamma, V, s);
    var b := Backup(m, gamma, V, s);
    BestOfIsMaxValue(m, gamma, V, s, |AllActions|);
    assert l[..|AllActions|] == l;
    assert b == MaxValue(l);
    ArgMaxIsFirstMax(l);
    if ArgMax(l).Some? {
      var k := ArgMax(l).value;
      assert Lookahead(m, gamma, V, s, AllActions[k]) == l[k];
    }
  }

  /** Off a wall compute_policy always records an action: every lookahead there is
      a number, so the first one already beats -infinity. */
  lemma PolicyDefinedOffWalls(w: World, m: Mdp, gamma: real, V: seq<real>, s: nat)
    requires WellFormed(w) && Models(w, m) && Closed(m)
    requires |V| == NumStates(w) && s < NumStates(w) && CellAt(w, s) != Wall
    ensures Greedy(m, gamma, V, s).Some?
  {
    OpenCellBackable(w, m, gamma, V, s);
    GreedyIsBest(m, gamma, V, s);
  }

  /** One pass of compute_policy's action loop for state s: the running maximum and
      the action that last raised it. */
  method BestAction(w: World, ghost m: Mdp, gamma: real, V: seq<real>, s: nat)
    returns (maxV: Option<real>, best: Option<Action>)
    requires WellFormed(w) && Models(w, m) && Closed(m)
    requires |V| == NumStates(w) && s < NumStates(w)
    ensures maxV == Backup(m, gamma, V, s)
    ensures best == Greedy(m, gamma, V, s)
  {
    ghost var l := Lookaheads(m, gamma, V, s);
    maxV, best := None, None;
    for i := 0 to |AllActions|
      invariant maxV == MaxValue(l[..i])
      invariant ArgMax(l[..i]).None? ==> best.None?
      invariant ArgMax(l[..i]).Some? ==> best == Some(AllActions[ArgMax(l[..i]).value])
    {
      var actionV := EvalAction(w, m, gamma, V, s, AllActions[i]);
      assert actionV == l[Index(AllActions[i])];
      MaxValuePrefix(l, i);
      if actionV.Some? && (maxV.None? || actionV.value > maxV.value) {
        maxV := actionV;
        best := Some(AllActions[i]);
      }
    }
    assert l[..|AllActions|] == l;
    BestOfIsMaxValue(m, gamma, V, s, |AllActions|);
  }

  /** The solver: grid, discount, tolerance, and the value and policy tables it
      updates in place; mdp is the grid's model the specification reads. */
  class ValueIteration {
    const world: World
    const gamma: real
    const epsilon: real
    const values: array<real>
    const policy: array<Option<Action>>
    ghost const mdp: Mdp

    ghost predicate Valid()
      reads this
    {
      && WellFormed(world) && Models(world, mdp) && Closed(mdp)
      && values.Length == NumStates(world) && policy.Length == NumStates(world)
    }

    /** Zero values and no policy entry for every state. */
    constructor (world: World, gamma: real, epsilon: real)
      requires WellFormed(world)
      ensures Valid() && this.world == world && this.gamma == gamma && this.epsilon == epsilon
      ensures fresh(values) && fresh(policy)
      ensures forall s :: 0 <= s < values.Length ==> values[s] == 0.0
      ensures forall s :: 0 <= s < policy.Length ==> policy[s] == None
    {
      this.world := world;
      this.gamma := gamma;
      this.epsilon := epsilon;
      values := new real[world.numCols * world.numRows](_ => 0.0);
      policy := new Option<Action>[world.numCols * world.numRows](_ => None);
      mdp := MdpOf(world);
      MdpOfModels(world);
    }

    /** One round of the while-loop body: copy the table, back every state up from
        the copy into the table, and sum the absolute changes. */
    method Sweep() returns (delta: real)
      requires Valid()
      modifies values
      ensures values[..] == Round(mdp, gamma, old(values[..]))
      ensures delta == Delta(old(values[..]), values[..])
    {
      var oldValues := values[..];
      ghost var next := Round(mdp, gamma, oldValues);
      delta := 0.0;
      for state := 0 to values.Length
        invariant forall i :: 0 <= i < state ==> values[i] == next[i]
        invariant forall i :: state <= i < values.Length ==> values[i] == oldValues[i]
        invariant delta == Delta(oldValues[..state], next[..state])
      {
        var maxV := BestBackup(world, mdp, gamma, oldValues, state);
        RoundAt(mdp, gamma, oldValues, state);
        if maxV.Some? {
          values[state] := maxV.value;
        }
        delta := delta + Abs(oldValues[state] - values[state]);
        DeltaStep(oldValues, next, state);
      }
      assert values[..] == next;
      assert oldValues[..|oldValues|] == oldValues && next[..|next|] == next;
    }

    /** value_iteration: rounds until the first round whose delta is below
        epsilon * (1 - gamma) / gamma, or until maxRounds rounds have run. */
    method Run(maxRounds: nat) returns (rounds: nat, delta: real, converged: bool)
      requires Valid() && gamma != 0.0
      modifies values
      ensures (values[..], rounds, delta, converged)
        == Converge(mdp, gamma, Threshold(epsilon, gamma), old(values[..]), 0.0, maxRounds)
    {
      ghost var start := values[..];
      var thr := Threshold(epsilon, gamma);
      ghost var goal := Converge(mdp, gamma, thr, start, 0.0, maxRounds);
      rounds, delta, converged := 0, 0.0, false;
      while rounds < maxRounds && !converged
        invariant rounds <= maxRounds
        invariant !converged ==>
          goal == Shift(Converge(mdp, gamma, thr, values[..], delta, maxRounds - rounds), rounds)
        invariant converged ==> goal == (values[..], rounds, delta, true)
      {
        rounds := rounds + 1;
        delta := Sweep();
        converged := delta < thr;
      }
    }

    /** compute_policy: for every state keep the first action whose lookahead is
        strictly greater than the running maximum; a state where no lookahead is a
        number keeps its entry. */
    method ComputePolicy()
      requires Valid()
      modifies policy
      ensures forall s :: 0 <= s < policy.Length ==>
        policy[s] == if Greedy(mdp, gamma, values[..], s).Some? then Greedy(mdp, gamma, values[..], s) else old(policy[s])
    {
      ghost var V := values[..];
      for state := 0 to policy.Length
        invariant forall i :: 0 <= i < state ==>
          policy[i] == if Greedy(mdp, gamma, V, i).Some? then Greedy(mdp, gamma, V, i) else old(policy[i])
        invariant forall i :: state <= i < policy.Length ==> policy[i] == old(policy[i])
      {
        var _, best := BestAction(world, mdp, gamma, values[..], state);
        if best.Some? {
          policy[state] := best;
        }
      }
    }
  }
}
