/** The model both solvers read off a GameEnv: the transition list
    get_possible_next_states returns for every state and action, and the reward
    get_reward returns for every state. A solver keeps a ghost Mdp tied to its grid
    by Models, so that what it computes is the same thing as what the grid's
    Transitions and RewardOf describe. */
module GridModel {
  import opened Wrappers
  import opened Actions
  import opened Grid

  /** next[s][Index(a)] is the transition list of action a in state s; reward[s] is
      the reward of entering s, None for a wall (NaN in the original). */
  datatype Mdp = Mdp(next: seq<seq<seq<(nat, real)>>>, reward: seq<Option<real>>)

  /** One transition list per state and action, every destination a state. */
  predicate Closed(m: Mdp)
  {
    && |m.next| == |m.reward|
    && (forall s :: 0 <= s < |m.next| ==> |m.next[s]| == |AllActions|)
    && (forall s, i, k :: 0 <= s < |m.next| && 0 <= i < |m.next[s]| && 0 <= k < |m.next[s][i]| ==>
          m.next[s][i][k].0 < |m.reward|)
  }

  /** m is the grid's own model: its lists are Transitions and its rewards RewardOf. */
  ghost predicate Models(w: World, m: Mdp)
    requires WellFormed(w)
  {
    && |m.next| == NumStates(w) && |m.reward| == NumStates(w)
    && (forall s :: 0 <= s < NumStates(w) ==> |m.next[s]| == |AllActions|)
    && (forall s, a {:trigger Transitions(w, s, a)} :: 0 <= s < NumStates(w) ==>
          m.next[s][Index(a)] == Transitions(w, s, a))
    && (forall s {:trigger RewardOf(w, s)} :: 0 <= s < NumStates(w) ==> m.reward[s] == RewardOf(w, s))
  }

  /** The model of a grid, built from its transition lists and rewards. */
  function MdpOf(w: World): Mdp
    requires WellFormed(w)
  {
    Mdp(seq(NumStates(w), s requires 0 <= s < NumStates(w) =>
          seq(|AllActions|, i requires 0 <= i < |AllActions| => Transitions(w, s, AllActions[i]))),
        seq(NumStates(w), s requires 0 <= s < NumStates(w) => RewardOf(w, s)))
  }

  /** Every grid has its model, and a model of a grid is closed. */
  lemma MdpOfModels(w: World)
    requires WellFormed(w)
    ensures Models(w, MdpOf(w)) && Closed(MdpOf(w))
  {
    var m := MdpOf(w);
    forall s, a | 0 <= s < NumStates(w) ensures m.next[s][Index(a)] == Transitions(w, s, a) {
    }
    ModelsClosed(w, m);
  }

  /** A model of a grid only leads to states of the grid. */
  lemma ModelsClosed(w: World, m: Mdp)
    requires WellFormed(w) && Models(w, m)
    ensures Closed(m)
  {
    forall s, i, k | 0 <= s < |m.next| && 0 <= i < |m.next[s]| && 0 <= k < |m.next[s][i]|
      ensures m.next[s][i][k].0 < |m.reward|
    {
      var a := AllActions[i];
      assert Index(a) == i;
      assert m.next[s][i] == Transitions(w, s, a);
    }
  }
}
