/** Tabular Q-learning (q_learning.py): the temporal-difference update of one
    Q-table entry, the greedy policy refresh, epsilon-greedy action selection with
    multiplicative decay, and the episode/step training loop.

    Every random number the original draws is supplied by the caller as a Draw, one
    per training step; the specification functions read the grid's transitions and
    rewards through the grid's Mdp. */
module Learning {
  import opened Wrappers
  import opened Actions
  import opened Grid
  import opened GridModel

  /** The random numbers of one training step: the uniform draw compared with
      epsilon, the action random.choice returns, and the draw draw_next_state uses. */
  datatype Draw = Draw(explore: real, choice: Action, move: real)

  /** gamma, the learning rate alpha and the epsilon decay factor. */
  datatype Rates = Rates(gamma: real, alpha: real, decay: real)

  /** What training changes: the Q-table (one row per state, one entry per action in
      the order up, down, left, right), the policy (None for the original's ''),
      and epsilon. */
  datatype Agent = Agent(q: seq<seq<real>>, policy: seq<Option<Action>>, epsilon: real)

  /** Tables for n states. */
  predicate Shaped(ag: Agent, n: nat)
  {
    && |ag.q| == n && |ag.policy| == n
    && forall s :: 0 <= s < n ==> |ag.q[s]| == |AllActions|
  }

  /** Python's max(x, y): the first argument unless the second is strictly greater. */
  function Max(x: real, y: real): real
  {
    if y > x then y else x
  }

  /** max(q_values[s].values()): a value of the row that no value of the row exceeds. */
  function MaxQ(row: seq<real>): (top: real)
    requires |row| == |AllActions|
    ensures exists i :: 0 <= i < |row| && row[i] == top
    ensures forall i :: 0 <= i < |row| ==> row[i] <= top
  {
    Max(Max(Max(row[0], row[1]), row[2]), row[3])
  }

  /** The key Python's max(q_values[s], key=...) returns: an action holding the
      row's maximum such that every action before it, in insertion order, holds
      strictly less. */
  function BestKey(row: seq<real>): (k: Action)
    requires |row| == |AllActions|
    ensures row[Index(k)] == MaxQ(row)
    ensures forall a :: Index(a) < Index(k) ==> row[Index(a)] < MaxQ(row)
  {
    var top := MaxQ(row);
    if row[0] == top then Up else if row[1] == top then Down else if row[2] == top then Left else Right
  }

  /** current moved by the fraction alpha of the way to target. */
  function Towards(current: real, target: real, alpha: real): real
  {
    current + alpha * (target - current)
  }

  /** The temporal-difference target: the reward plus the discounted best Q value
      of the state reached. */
  function Target(reward: real, gamma: real, row: seq<real>): real
    requires |row| == |AllActions|
  {
    reward + gamma * MaxQ(row)
  }

  /** The Q-table after update_q_values: entry (prev, a) moved by alpha towards
      reward + gamma * max Q(curr, .) and every other entry kept. */
  function TdUpdate(q: seq<seq<real>>, prev: nat, a: Action, reward: real, curr: nat, rates: Rates)
    : seq<seq<real>>
    requires prev < |q| && curr < |q| && |q[prev]| == |AllActions| && |q[curr]| == |AllActions|
  {
    var current := q[prev][Index(a)];
    q[prev := q[prev][Index(a) := Towards(current, Target(reward, rates.gamma, q[curr]), rates.alpha)]]
  }

  /** The update changes the single entry (prev, a), leaves every other entry and
      the shape of the table alone, with learning rate 0 changes nothing, and with
      learning rate 1 sets the entry to the target reward + gamma * max Q(curr, .). */
  lemma TdUpdateChangesOneEntry(q: seq<seq<real>>, prev: nat, a: Action, reward: real, curr: nat, rates: Rates)
    requires prev < |q| && curr < |q| && |q[prev]| == |AllActions| && |q[curr]| == |AllActions|
    ensures var q' := TdUpdate(q, prev, a, reward, curr, rates);
      && |q'| == |q|
      && (forall s :: 0 <= s < |q| ==> |q'[s]| == |q[s]|)
      && (forall s, b :: 0 <= s < |q| && Index(b) < |q[s]| && (s, b) != (prev, a) ==>
            q'[s][Index(b)] == q[s][Index(b)])
      && q'[prev][Index(a)] - q[prev][Index(a)]
         == rates.alpha * (reward + rates.gamma * MaxQ(q[curr]) - q[prev][Index(a)])
      && (rates.alpha == 0.0 ==> q' == q)
      && (rates.alpha == 1.0 ==> q'[prev][Index(a)] == reward + rates.gamma * MaxQ(q[curr]))
  {
    if rates.alpha == 0.0 {
      var row := q[prev];
      var target := Target(reward, rates.gamma, q[curr]);
      assert Towards(row[Index(a)], target, 0.0) == row[Index(a)];
      assert row[Index(a) := row[Index(a)]] == row;
      assert q[prev := row] == q;
    }
  }

  /** get_next_action's choice once epsilon has decayed: the random action when the
      draw is below epsilon or the state has no policy entry yet, else the policy's
      action. */
  function ChooseAction(epsilon: real, entry: Option<Action>, explore: real, choice: Action): (a: Action)
    ensures entry.Some? && explore >= epsilon ==> a == entry.value
    ensures entry.None? || explore < epsilon ==> a == choice
  {
    if explore < epsilon || entry.None? then choice else entry.value
  }

  /** Off a wall, every destination of every action is off a wall too (a wall is
      never entered, only stayed in). */
  predicate OffWalls(m: Mdp)
    requires Closed(m)
  {
    forall s, i, k :: 0 <= s < |m.next| && 0 <= i < |m.next[s]| && 0 <= k < |m.next[s][i]| && m.reward[s].Some? ==>
      m.reward[m.next[s][i][k].0].Some?
  }

  /** The model of a grid never leads into a wall. */
  lemma ModelsOffWalls(w: World, m: Mdp)
    requires WellFormed(w) && Models(w, m) && Closed(m)
    ensures OffWalls(m)
  {
    forall s, i, k | 0 <= s < |m.next| && 0 <= i < |m.next[s]| && 0 <= k < |m.next[s][i]| && m.reward[s].Some?
      ensures m.reward[m.next[s][i][k].0].Some?
    {
      var a := AllActions[i];
      assert Index(a) == i;
      var ts := Transitions(w, s, a);
      assert m.next[s][i] == ts;
      var d := ts[k].0;
      RewardCases(w, s);
      assert m.reward[s] == RewardOf(w, s);
      TransitionDestinations(w, s, a);
      RewardCases(w, d);
      assert m.reward[d] == RewardOf(w, d);
    }
  }

  /** The state a draw r reaches from s with action a; off a wall, it is a state
      off a wall. */
  function Move(m: Mdp, s: nat, a: Action, r: real): (d: nat)
    requires Closed(m) && OffWalls(m) && s < |m.reward|
    ensures d < |m.reward|
    ensures m.reward[s].Some? ==> m.reward[d].Some?
  {
    var ts := m.next[s][Index(a)];
    SampleListed(s, ts, r);
    Sample(s, ts, r)
  }

  /** epsilon after one call of get_next_action. */
  function Decayed(epsilon: real, decay: real): real
  {
    epsilon * decay
  }

  /** epsilon after k calls of get_next_action. */
  function DecayedTimes(epsilon: real, decay: real, k: nat): real
  {
    if k == 0 then epsilon else Decayed(DecayedTimes(epsilon, decay, k - 1), decay)
  }

  /** Decaying j times and then k times is decaying j + k times. */
  lemma {:induction false} DecayTwice(epsilon: real, decay: real, j: nat, k: nat)
    ensures DecayedTimes(DecayedTimes(epsilon, decay, j), decay, k) == DecayedTimes(epsilon, decay, j + k)
    decreases k
  {
    if k > 0 {
      DecayTwice(epsilon, decay, j, k - 1);
    }
  }

  /** The action of one training step and the epsilon after it: random.choice in
      episode 0, get_next_action (with its decay) afterwards. */
  function StepAction(rates: Rates, ag: Agent, s: nat, episode: nat, d: Draw): (Action, real)
    requires s < |ag.policy|
  {
    if episode == 0 then (d.choice, ag.epsilon)
    else
      var e := Decayed(ag.epsilon, rates.decay);
      (ChooseAction(e, ag.policy[s], d.explore, d.choice), e)
  }

  /** The body of the step loop from state s: choose the action, draw the next
      state, update the Q entry of (s, action), then refresh the policy of the
      state entered. */
  function TrainStep(m: Mdp, rates: Rates, ag: Agent, s: nat, episode: nat, d: Draw): (r: (Agent, nat))
    requires Closed(m) && OffWalls(m) && Shaped(ag, |m.reward|) && s < |m.reward| && m.reward[s].Some?
    ensures Shaped(r.0, |m.reward|) && r.1 < |m.reward| && m.reward[r.1].Some?
  {
    var (a, e) := StepAction(rates, ag, s, episode, d);
    var next := Move(m, s, a, d.move);
    var q' := TdUpdate(ag.q, s, a, m.reward[next].value, next, rates);
    TdUpdateChangesOneEntry(ag.q, s, a, m.reward[next].value, next, rates);
    (Agent(q', ag.policy[next := Some(BestKey(q'[next]))], e), next)
  }

  /** A step changes the Q-table only at (s, action), the policy only at the state
      entered, where it becomes the greedy action; epsilon decays once except in
      episode 0. */
  lemma TrainStepLocal(m: Mdp, rates: Rates, ag: Agent, s: nat, episode: nat, d: Draw)
    requires Closed(m) && OffWalls(m) && Shaped(ag, |m.reward|) && s < |m.reward| && m.reward[s].Some?
    ensures var (ag', next) := TrainStep(m, rates, ag, s, episode, d);
      var a := StepAction(rates, ag, s, episode, d).0;
      && (forall t, b :: 0 <= t < |ag.q| && (t, b) != (s, a) ==> ag'.q[t][Index(b)] == ag.q[t][Index(b)])
      && (forall t :: 0 <= t < |ag.policy| && t != next ==> ag'.policy[t] == ag.policy[t])
      && ag'.policy[next] == Some(BestKey(ag'.q[next]))
      && ag'.epsilon == (if episode == 0 then ag.epsilon else Decayed(ag.epsilon, rates.decay))
  {
    var (a, e) := StepAction(rates, ag, s, episode, d);
    var next := Move(m, s, a, d.move);
    TdUpdateChangesOneEntry(ag.q, s, a, m.reward[next].value, next, rates);
  }

  /** A reward or penalty cell, read off the model: the states worth +1 or -1. */
  predicate Terminal(m: Mdp, s: nat)
    requires s < |m.reward|
  {
    m.reward[s] == Some(1.0) || m.reward[s] == Some(-1.0)
  }

  /** On the model of a grid, Terminal is the grid's is_terminal. */
  lemma ModelsTerminal(w: World, m: Mdp, s: nat)
    requires WellFormed(w) && Models(w, m) && s < NumStates(w)
    ensures Terminal(m, s) <==> IsTerminal(w, s)
  {
    RewardCases(w, s);
    assert m.reward[s] == RewardOf(w, s);
  }

  /** Adds k to the step count of a result of Episode. */
  function Count(r: (Agent, nat, nat, bool), k: nat): (Agent, nat, nat, bool)
  {
    (r.0, r.1, r.2 + k, r.3)
  }

  /** A run of the step loop that has taken `used` steps and reached agent ag in
      state s, with the draws `rest` left, ends as goal. */
  ghost predicate Resumes(m: Mdp, rates: Rates, goal: (Agent, nat, nat, bool), ag: Agent, s: nat, episode: nat,
                          rest: seq<Draw>, used: nat)
  {
    && Closed(m) && OffWalls(m) && Shaped(ag, |m.reward|) && s < |m.reward| && m.reward[s].Some?
    && goal == Count(Episode(m, rates, ag, s, episode, rest), used)
  }

  /** The step loop of one episode from state s: the agent and state it ends with,
      the number of draws it used, and whether it ended (false when the draws ran
      out first). The terminal flag is read before the step, so a step is still
      taken from the terminal state before the episode ends. */
  function Episode(m: Mdp, rates: Rates, ag: Agent, s: nat, episode: nat, draws: seq<Draw>)
    : (r: (Agent, nat, nat, bool))
    requires Closed(m) && OffWalls(m) && Shaped(ag, |m.reward|) && s < |m.reward| && m.reward[s].Some?
    ensures Shaped(r.0, |m.reward|) && r.1 < |m.reward| && m.reward[r.1].Some? && r.2 <= |draws|
    decreases |draws|, 1
  {
    if |draws| == 0 then (ag, s, 0, false)
    else Continue(m, rates, ag, s, episode, draws)
  }

  /** One pass of the step loop with the first draw, then the rest of the episode
      unless the flag read before the step was set. */
  function Continue(m: Mdp, rates: Rates, ag: Agent, s: nat, episode: nat, draws: seq<Draw>)
    : (r: (Agent, nat, nat, bool))
    requires Closed(m) && OffWalls(m) && Shaped(ag, |m.reward|) && s < |m.reward| && m.reward[s].Some?
    requires |draws| > 0
    ensures Shaped(r.0, |m.reward|) && r.1 < |m.reward| && m.reward[r.1].Some? && r.2 <= |draws|
    decreases |draws|, 0
  {
    var (ag', next) := TrainStep(m, rates, ag, s, episode, draws[0]);
    if Terminal(m, s) then (ag', next, 1, true)
    else Count(Episode(m, rates, ag', next, episode, draws[1..]), 1)
  }

  /** An episode that ends has taken at least one step, and exactly one exactly
      when it started on a terminal state; one that does not end has used up every
      draw. */
  lemma {:induction false} EpisodeSteps(m: Mdp, rates: Rates, ag: Agent, s: nat, episode: nat, draws: seq<Draw>)
    requires Closed(m) && OffWalls(m) && Shaped(ag, |m.reward|) && s < |m.reward| && m.reward[s].Some?
    ensures var r := Episode(m, rates, ag, s, episode, draws);
      && (r.3 ==> 1 <= r.2)
      && (!r.3 ==> r.2 == |draws|)
      && (r.2 == 1 && r.3 <==> |draws| > 0 && Terminal(m, s))
    decreases |draws|
  {
    if |draws| > 0 && !Terminal(m, s) {
      var (ag', next) := TrainStep(m, rates, ag, s, episode, draws[0]);
      EpisodeSteps(m, rates, ag', next, episode, draws[1..]);
    }
  }

  /** In episode 0 epsilon is untouched; in a later episode it has decayed once per
      step. */
  lemma {:induction false} EpisodeEpsilon(m: Mdp, rates: Rates, ag: Agent, s: nat, episode: nat, draws: seq<Draw>)
    requires Closed(m) && OffWalls(m) && Shaped(ag, |m.reward|) && s < |m.reward| && m.reward[s].Some?
    ensures var r := Episode(m, rates, ag, s, episode, draws);
      r.0.epsilon == if episode == 0 then ag.epsilon else DecayedTimes(ag.epsilon, rates.decay, r.2)
    decreases |draws|
  {
    if |draws| > 0 {
      var (ag', next) := TrainStep(m, rates, ag, s, episode, draws[0]);
      TrainStepLocal(m, rates, ag, s, episode, draws[0]);
      assert DecayedTimes(ag.epsilon, rates.decay, 1) == Decayed(ag.epsilon, rates.decay);
      if !Terminal(m, s) {
        EpisodeEpsilon(m, rates, ag', next, episode, draws[1..]);
        var r' := Episode(m, rates, ag', next, episode, draws[1..]);
        DecayTwice(ag.epsilon, rates.decay, 1, r'.2);
      }
    }
  }

  /** Adds k to the draw count of a result of Training. */
  function Plus(r: (Agent, nat, bool), k: nat): (Agent, nat, bool)
  {
    (r.0, r.1 + k, r.2)
  }

  /** The episode loop of train from episode `episode` up to nbEpisodes, each started
      at the start state: the final agent, the draws used, and whether every episode
      ended before the draws ran out. */
  function Training(m: Mdp, rates: Rates, ag: Agent, start: nat, episode: nat, nbEpisodes: nat, draws: seq<Draw>)
    : (r: (Agent, nat, bool))
    requires Closed(m) && OffWalls(m) && Shaped(ag, |m.reward|) && start < |m.reward| && m.reward[start].Some?
    ensures Shaped(r.0, |m.reward|) && r.1 <= |draws|
    decreases nbEpisodes - episode, 1
  {
    if episode >= nbEpisodes then (ag, 0, true)
    else NextEpisode(m, rates, Episode(m, rates, ag, start, episode, draws), start, episode, nbEpisodes, draws)
  }

  /** What the episode loop does after episode `episode` ended with e: stop when the
      draws ran out, otherwise go on with the next episode and the draws left. */
  function NextEpisode(m: Mdp, rates: Rates, e: (Agent, nat, nat, bool), start: nat, episode: nat, nbEpisodes: nat,
                       draws: seq<Draw>): (r: (Agent, nat, bool))
    requires Closed(m) && OffWalls(m) && Shaped(e.0, |m.reward|) && start < |m.reward| && m.reward[start].Some?
    requires e.2 <= |draws| && episode < nbEpisodes
    ensures Shaped(r.0, |m.reward|) && r.1 <= |draws|
    decreases nbEpisodes - episode, 0
  {
    if !e.3 then (e.0, e.2, false)
    else
      var t := Training(m, rates, e.0, start, episode + 1, nbEpisodes, draws[e.2..]);
      (t.0, e.2 + t.1, t.2)
  }

  /** An episode loop that has used `used` draws and reached agent ag at episode
      `episode`, with the draws `rest` left, ends as goal. */
  ghost predicate TrainingResumes(m: Mdp, rates: Rates, goal: (Agent, nat, bool), ag: Agent, start: nat, episode: nat,
                                  nbEpisodes: nat, rest: seq<Draw>, used: nat)
  {
    && Closed(m) && OffWalls(m) && Shaped(ag, |m.reward|) && start < |m.reward| && m.reward[start].Some?
    && goal == Plus(Training(m, rates, ag, start, episode, nbEpisodes, rest), used)
  }

  /** One pass of the episode loop: run the episode; stop when it did not end,
      otherwise go on with the next episode on the draws it left. */
  lemma TrainingUnfold(m: Mdp, rates: Rates, ag: Agent, start: nat, episode: nat, nbEpisodes: nat, draws: seq<Draw>)
    requires Closed(m) && OffWalls(m) && Shaped(ag, |m.reward|) && start < |m.reward| && m.reward[start].Some?
    requires episode < nbEpisodes
    ensures var e := Episode(m, rates, ag, start, episode, draws);
      Training(m, rates, ag, start, episode, nbEpisodes, draws)
        == if !e.3 then (e.0, e.2, false)
           else Plus(Training(m, rates, e.0, start, episode + 1, nbEpisodes, draws[e.2..]), e.2)
  {
    var e := Episode(m, rates, ag, start, episode, draws);
    assert Training(m, rates, ag, start, episode, nbEpisodes, draws)
      == NextEpisode(m, rates, e, start, episode, nbEpisodes, draws);
  }

  /** The episode loop resumes at the next episode after one that ended, and ends
      as goal after one that did not. */
  lemma TrainingStep(m: Mdp, rates: Rates, goal: (Agent, nat, bool), ag: Agent, start: nat, episode: nat,
                     nbEpisodes: nat, rest: seq<Draw>, used: nat)
    requires TrainingResumes(m, rates, goal, ag, start, episode, nbEpisodes, rest, used) && episode < nbEpisodes
    ensures var e := Episode(m, rates, ag, start, episode, rest);
      && (e.3 ==> TrainingResumes(m, rates, goal, e.0, start, episode + 1, nbEpisodes, rest[e.2..], used + e.2))
      && (!e.3 ==> goal == (e.0, used + e.2, false))
  {
    TrainingUnfold(m, rates, ag, start, episode, nbEpisodes, rest);
  }

  /** Training that stops short of nbEpisodes has used every draw; from episode 1
      on every step calls get_next_action once, so epsilon has been multiplied by
      the decay once per draw used. */
  lemma {:induction false} TrainingDecay(m: Mdp, rates: Rates, ag: Agent, start: nat, episode: nat, nbEpisodes: nat, draws: seq<Draw>)
    requires Closed(m) && OffWalls(m) && Shaped(ag, |m.reward|) && start < |m.reward| && m.reward[start].Some?
    requires episode >= 1
    ensures var r := Training(m, rates, ag, start, episode, nbEpisodes, draws);
      && r.0.epsilon == DecayedTimes(ag.epsilon, rates.decay, r.1)
      && (!r.2 ==> r.1 == |draws|)
    decreases nbEpisodes - episode
  {
    if episode < nbEpisodes {
      var e := Episode(m, rates, ag, start, episode, draws);
      EpisodeEpsilon(m, rates, ag, start, episode, draws);
      EpisodeSteps(m, rates, ag, start, episode, draws);
      TrainingUnfold(m, rates, ag, start, episode, nbEpisodes, draws);
      if e.3 {
        TrainingDecay(m, rates, e.0, start, episode + 1, nbEpisodes, draws[e.2..]);
        var t := Training(m, rates, e.0, start, episode + 1, nbEpisodes, draws[e.2..]);
        DecayTwice(ag.epsilon, rates.decay, e.2, t.1);
      }
    }
  }

  /** The learner: the environment, the rates, the episode count, and the epsilon,
      Q-table and policy it updates; mdp is the environment's model the
      specification reads. */
  class QLearning {
    const env: GameEnv
    const gamma: real
    const alpha: real
    const nbEpisodes: nat
    const epsDecay: real
    var epsilon: real
    var q: seq<seq<real>>
    var policy: seq<Option<Action>>
    ghost const mdp: Mdp

    function Params(): Rates
    {
      Rates(gamma, alpha, epsDecay)
    }

    function GetAgent(): Agent
      reads this
    {
      Agent(q, policy, epsilon)
    }

    ghost predicate Valid()
      reads this
    {
      && WellFormed(env.world) && Models(env.world, mdp) && Closed(mdp) && OffWalls(mdp)
      && Shaped(GetAgent(), NumStates(env.world))
    }

    /** Q values 0 and no policy entry for every state. */
    constructor (env: GameEnv, gamma: real, alpha: real, nbEpisodes: nat, epsilon: real, epsDecay: real)
      requires WellFormed(env.world)
      ensures Valid() && this.env == env
      ensures this.gamma == gamma && this.alpha == alpha && this.nbEpisodes == nbEpisodes
      ensures this.epsilon == epsilon && this.epsDecay == epsDecay
      ensures forall s, a :: 0 <= s < |q| ==> q[s][Index(a)] == 0.0
      ensures forall s :: 0 <= s < |policy| ==> policy[s] == None
    {
      this.env := env;
      this.gamma := gamma;
      this.alpha := alpha;
      this.nbEpisodes := nbEpisodes;
      this.epsilon := epsilon;
      this.epsDecay := epsDecay;
      var n := env.world.numCols * env.world.numRows;
      q := seq(n, _ => [0.0, 0.0, 0.0, 0.0]);
      policy := seq(n, _ => None);
      mdp := MdpOf(env.world);
      MdpOfModels(env.world);
      ModelsOffWalls(env.world, MdpOf(env.world));
    }

    /** get_next_action: decay epsilon, then explore on a draw below it or when the
        state has no policy entry, else follow the policy. */
    method GetNextAction(state: nat, explore: real, choice: Action) returns (a: Action)
      requires Valid() && state < |policy|
      modifies this
      ensures q == old(q) && policy == old(policy)
      ensures epsilon == Decayed(old(epsilon), epsDecay)
      ensures a == ChooseAction(epsilon, policy[state], explore, choice)
    {
      epsilon := Decayed(epsilon, epsDecay);
      if explore < epsilon || policy[state] == None {
        return choice;
      } else {
        return policy[state].value;
      }
    }

    /** update_q_values. */
    method UpdateQValues(prevState: nat, action: Action, reward: real, currState: nat)
      requires Valid() && prevState < |q| && currState < |q|
      modifies this
      ensures Valid()
      ensures q == TdUpdate(old(q), prevState, action, reward, currState, Params())
      ensures policy == old(policy) && epsilon == old(epsilon)
    {
      var current := q[prevState][Index(action)];
      var target := Target(reward, gamma, q[currState]);
      q := q[prevState := q[prevState][Index(action) := Towards(current, target, alpha)]];
    }

    /** update_policy: the state's entry becomes its first maximal action. */
    method UpdatePolicy(state: nat)
      requires Valid() && state < |policy|
      modifies this
      ensures Valid()
      ensures policy == old(policy)[state := Some(BestKey(q[state]))]
      ensures q == old(q) && epsilon == old(epsilon)
    {
      policy := policy[state := Some(BestKey(q[state]))];
    }

    /** One pass of the step loop's body from curr: choose the action (at random in
        episode 0), draw the next state, update the Q entry of the step and refresh
        the policy of the state entered. */
    method TakeStep(curr: nat, episode: nat, d: Draw) returns (next: nat)
      requires Valid() && curr < NumStates(env.world) && mdp.reward[curr].Some?
      modifies this
      ensures Valid()
      ensures (GetAgent(), next) == TrainStep(mdp, Params(), old(GetAgent()), curr, episode, d)
    {
      var action: Action;
      if episode == 0 {
        action := d.choice;
      } else {
        action := GetNextAction(curr, d.explore, d.choice);
      }
      var prevState := curr;
      var possible := NextStates(curr, action);
      next := DrawNextState(prevState, possible, d.move);
      assert next == Move(mdp, prevState, action, d.move);
      var reward := Reward(next);
      UpdateQValues(prevState, action, reward.value, next);
      UpdatePolicy(next);
    }

    /** One pass of the body of the step loop: read the terminal flag of curr, then
        take the step with draws[k]. A run that was to end as goal still does, one
        step further on. */
    method StepPass(curr: nat, episode: nat, draws: seq<Draw>, k: nat, ghost goal: (Agent, nat, nat, bool),
                    ghost used: nat) returns (next: nat, terminal: bool)
      requires Valid() && curr < NumStates(env.world) && k < |draws|
      requires Resumes(mdp, Params(), goal, GetAgent(), curr, episode, draws[k..], used)
      modifies this
      ensures Valid() && next < NumStates(env.world)
      ensures terminal ==> goal == (GetAgent(), next, used + 1, true)
      ensures !terminal ==> Resumes(mdp, Params(), goal, GetAgent(), next, episode, draws[k + 1..], used + 1)
    {
      ghost var ag := GetAgent();
      terminal := IsTerminalState(curr);
      next := TakeStep(curr, episode, draws[k]);
      assert draws[k..][1..] == draws[k + 1..];
      assert Episode(mdp, Params(), ag, curr, episode, draws[k..])
        == if terminal then (GetAgent(), next, 1, true)
           else Count(Episode(mdp, Params(), GetAgent(), next, episode, draws[k + 1..]), 1);
    }

    /** get_possible_next_states of the environment. */
    method NextStates(s: nat, a: Action) returns (ts: seq<(nat, real)>)
      requires Valid() && s < NumStates(env.world)
      ensures ts == mdp.next[s][Index(a)]
    {
      ts := PossibleNextStates(env.world, s, a);
    }

    /** get_reward of the environment. */
    method Reward(s: nat) returns (r: Option<real>)
      requires Valid() && s < NumStates(env.world)
      ensures r == mdp.reward[s]
    {
      r := RewardOf(env.world, s);
    }

    /** is_terminal on the current state. */
    method IsTerminalState(s: nat) returns (b: bool)
      requires Valid() && s < NumStates(env.world)
      ensures b == Terminal(mdp, s)
    {
      b := IsTerminal(env.world, s);
      ModelsTerminal(env.world, mdp, s);
    }

    /** One episode of train from the reset start state, reading draws from index
        from on: steps until the one taken from a terminal state, or until the
        draws run out. */
    method RunEpisode(episode: nat, draws: seq<Draw>, from: nat) returns (used: nat, ended: bool)
      requires Valid() && from <= |draws| && mdp.reward[StartState(env.world)].Some?
      modifies this, env
      ensures Valid() && env.state == StartState(env.world)
      ensures (GetAgent(), used, ended)
        == (var e := Episode(mdp, Params(), old(GetAgent()), StartState(env.world), episode, draws[from..]); (e.0, e.2, e.3))
    {
      var w := env.world;
      env.Reset();
      var curr: nat := env.state;
      ghost var goal := Episode(mdp, Params(), GetAgent(), curr, episode, draws[from..]);
      var terminal := false;
      used := 0;
      while !terminal && from + used < |draws|
        invariant Valid() && from + used <= |draws| && curr < NumStates(w)
        invariant !terminal ==> Resumes(mdp, Params(), goal, GetAgent(), curr, episode, draws[from + used..], used)
        invariant terminal ==> goal == (GetAgent(), curr, used, true)
        modifies this
        decreases |draws| - (from + used)
      {
        curr, terminal := StepPass(curr, episode, draws, from + used, goal, used);
        used := used + 1;
      }
      ended := terminal;
    }

    /** train, with the random numbers of step i supplied as draws[i]: nbEpisodes
        episodes, stopping early when the draws run out. Returns the draws used and
        whether every episode ended. */
    method Train(draws: seq<Draw>) returns (used: nat, complete: bool)
      requires Valid() && CellAt(env.world, StartState(env.world)) != Wall
      modifies this, env
      ensures Valid()
      ensures env.state == if nbEpisodes > 0 then StartState(env.world) else old(env.state)
      ensures mdp.reward[StartState(env.world)].Some?
      ensures (GetAgent(), used, complete)
        == Training(mdp, Params(), old(GetAgent()), StartState(env.world), 0, nbEpisodes, draws)
    {
      var w := env.world;
      RewardCases(w, StartState(w));
      assert mdp.reward[StartState(w)] == RewardOf(w, StartState(w));
      ghost var goal := Training(mdp, Params(), GetAgent(), StartState(w), 0, nbEpisodes, draws);
      used, complete := 0, true;
      var episode := 0;
      while episode < nbEpisodes && complete
        invariant Valid() && episode <= nbEpisodes && used <= |draws|
        invariant env.state == if episode > 0 then StartState(w) else old(env.state)
        invariant !complete ==> episode > 0
        invariant complete ==>
          TrainingResumes(mdp, Params(), goal, GetAgent(), StartState(w), episode, nbEpisodes, draws[used..], used)
        invariant !complete ==> goal == (GetAgent(), used, false)
      {
        ghost var ag := GetAgent();
        var steps, ended := RunEpisode(episode, draws, used);
        TrainingStep(mdp, Params(), goal, ag, StartState(w), episode, nbEpisodes, draws[used..], used);
        assert draws[used..][steps..] == draws[used + steps..];
        used := used + steps;
        complete := ended;
        episode := episode + 1;
      }
    }
  }

}
