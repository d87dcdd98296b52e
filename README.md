# Grid-world MDP: environment, value iteration and Q-learning

This project models three parts of a Pacman-style grid world in Dafny and proves
properties of them:

- **Environment (`GameEnv`)**: the grid, the numbering of its states, the rewards,
  the deterministic move, the noisy transition list and sampling from it.
  Modules `Actions` and `Grid`, files `actions.dfy` and `game_env.dfy`.
- **Value iteration (`ValueIteration`)**: synchronous Bellman backups over a copy
  of the value table, the delta accumulator with its stopping rule, and policy
  extraction by strict argmax: ties go to the first action in up, down, left,
  right order. Module `Planning`, file `value_iteration.dfy`.
- **Q-learning (`QLearning`)**: the one-step temporal-difference update, the
  greedy policy refresh, epsilon-greedy selection with multiplicative decay, and
  the episode/step training loop. Module `Learning`, file `q_learning.dfy`.

`wrappers.dfy` holds `Option` and `Result`.

How the model is built:

- Each imperative routine of the original is a Dafny method with loops and
  invariants, proved equal to a specification function. The proved properties
  are then stated about that function.
- Stateful objects are classes:
  - `GameEnv` keeps its current state.
  - `ValueIteration` keeps its value and policy tables in arrays.
  - `QLearning` keeps its Q-table, policy and epsilon in fields that its methods
    reassign.
- Both solvers keep a ghost `Mdp`. It holds one transition list per state and
  action, and one reward per state. The predicate `Models` ties this `Mdp` to the
  grid's own `Transitions` and `RewardOf`. These live in module `GridModel`, file
  `grid_model.dfy`, which both solvers import.
- Probabilities and values are `real`.
- The NaN reward of a wall is `None`. It propagates the way NaN does:
  - a sum that contains it is `None`;
  - Python's `max` never picks it;
  - a backup with no numeric lookahead is `None`, standing for `-inf`.
- Every random number is passed in by the caller:
  - the draw of `draw_next_state` is a parameter;
  - training takes one `Draw` per step, holding `random.uniform`, `random.choice`
    and the move draw.

Behaviours of the code the model keeps as written:

- The constructor checks only for an empty grid or an empty first row
  (`game_env.py:6-7`). The width is the first row's length (`game_env.py:10`)
  and no cell is read at a column beyond it (`game_env.py:30-35`,
  `game_env.py:50-57`), so a later row longer than the first is cut to that
  width. The model excludes grids with a shorter row, which the original
  indexes past its end.
- `draw_next_state` falls back to the given state, not to the last entry
  (`game_env.py:116`).
- Reward and penalty cells are not absorbing:
  - value iteration backs them up like any other cell (`value_iteration.py:43-51`);
  - training still takes one step from a terminal state, because the flag is read
    before the step (`q_learning.py:72-83`).
- Epsilon is decayed before it is compared with the draw, inside
  `get_next_action` (`q_learning.py:38-39`).
- The reward of a wall is NaN, not an error (`game_env.py:36-37`).

`reset` and `is_terminal` are called by `q_learning.py:69` and `q_learning.py:73`
but are not defined in `game_env.py`. The model adds them from their evident
intent:

- `reset` puts the agent on the start state, as `game_env.py:165` does.
- `is_terminal` holds on reward and penalty cells.

## Model

| member | source | states |
|---|---|---|
| Actions.Index | q_learning.py:10 | each action's position in the fixed order up, down, left, right, which is the Q-table's insertion order |
| Actions.Perpendicular | game_env.py:72-95 | the two slip directions are distinct and orthogonal to the requested move: left/right for up/down, up/down for left/right |
| Actions.ArgMax | value_iteration.py:72-74 | the selected index, when there is one, holds a defined value |
| Actions.ArgMaxIsFirstMax | value_iteration.py:66-74 | the strict-greater scan picks a defined value that no defined value exceeds, and every earlier defined value is strictly below it; it picks nothing exactly when no value is defined |
| Actions.MaxValueIsMax | value_iteration.py:44-50 | the running max(max_v, v) from -inf is one of the values, bounds every defined value, and stays -inf exactly when every value is NaN |
| Actions.MaxValuePrefix | value_iteration.py:50 | scanning one more value is one max step; MaxStep is that max(max_v, v) step |
| Grid.Create | game_env.py:5-12 | construction fails exactly on an empty grid or an empty first row; otherwise it records the grid and its dimensions; the world is well formed exactly when no row is shorter than the first; the start state (rows-1)*cols is in range, in column 0 of the last row |
| Grid.StateToPosition | game_env.py:15-16 | row state // num_cols and column state % num_cols; PositionRoundTrip proves position_to_state undoes it, with the column below num_cols and, for a state, the row below num_rows |
| Grid.PositionToState | game_env.py:19-20 | row * num_cols + column; StateRoundTrip proves state_to_position undoes it for columns inside the row, and StartInBottomLeft places the start state |
| Grid.PositionRoundTrip | game_env.py:15-20 | position_to_state undoes state_to_position; the column is below num_cols, and the row is below num_rows for every state below rows*cols |
| Grid.StateRoundTrip | game_env.py:15-20 | state_to_position undoes position_to_state for columns inside the row |
| Grid.StartInBottomLeft | game_env.py:11-12 | the start state is a state, and it sits in the bottom-left corner; StartState is that start state |
| Grid.RewardCases | game_env.py:23-37 | the reward is undefined (NaN) exactly on walls, -0.04 exactly on empty cells, +1 exactly on reward cells and -1 exactly on penalty cells; terminal cells are exactly those worth +1 or -1 |
| Grid.RewardOf | game_env.py:23-37 | the reward of the cell a state stands for; RewardCases proves it is undefined (NaN) exactly on walls, -0.04 exactly on empty cells, and +1 or -1 exactly on terminal cells |
| Grid.IsTerminal | q_learning.py:73 | the added is_terminal: a reward or penalty cell; RewardCases proves it holds exactly where the reward is +1 or -1, and ModelsTerminal ties it to the solver's test |
| Grid.NextState | game_env.py:40-59 | the deterministic move always yields a state of the grid |
| Grid.NextStateMeaning | game_env.py:48-59 | the move reaches the geometric neighbour exactly when that neighbour is inside the grid and not a wall; otherwise it returns the input state; a move that does not bounce never ends on a wall |
| Grid.MoveAvoidsWalls | game_env.py:48-59 | a sub-move that does not bounce lands off walls |
| Grid.Outcomes | game_env.py:72-95 | the sub-moves' destinations are states, one per sub-move, each with its own probability |
| Grid.OutcomesOfSubMoves | game_env.py:72-95 | the three sub-moves are the intended direction with 0.8 and the two perpendicular directions with 0.1 each |
| Grid.Transitions | game_env.py:62-100 | every destination of the transition list is a state of the grid |
| Grid.PossibleNextStates | game_env.py:62-100 | the method builds the list by appending and by rewriting entry 0, and returns exactly Transitions |
| Grid.AddOutcome | game_env.py:74-77 | a blocked sub-move adds its probability to entry 0 and any other sub-move appends its destination; either way one more outcome is tallied |
| Grid.CollectStep | game_env.py:74-83 | tallying one more outcome adds its mass to the self-loop or appends it to the moved entries |
| Grid.TotalConcat | game_env.py:70-95 | probability mass adds up over concatenation |
| Grid.LayoutShape | game_env.py:70-98 | for outcomes carrying 0.8, 0.1 and 0.1: the self-loop at index 0 is present exactly when an outcome bounces, and then holds the whole bounced mass; every other entry leads elsewhere and is one of the outcomes; without a bounce the list is the outcomes in order; the total is 1; Layout builds the list, dropping entry 0 under the 1e-12 test of game_env.py:97-98 |
| Grid.TransitionsSumToOne | game_env.py:70-95 | the probabilities of every transition list sum to exactly 1 |
| Grid.TransitionsShape | game_env.py:70-98 | entry 0 is the self-loop exactly when some sub-move is blocked, and it carries the blocked mass; it is dropped exactly when nothing is blocked, leaving 3 entries; every other entry leads elsewhere with probability 0.8 or 0.1 |
| Grid.TransitionDestinations | game_env.py:72-95 | every entry other than the self-loop is the intended move with 0.8 or a perpendicular move with 0.1, and it is not a wall |
| Grid.SampleFrom | game_env.py:110-116 | the destination of the first entry from index k on whose running sum exceeds the draw, or the given state; SampleSkip, SampleFromListed and SampleFirstExceeding carry its properties |
| Grid.Sample | game_env.py:103-116 | draw_next_state's outcome for a given draw; SampleFirstExceeding, SampleFallBack, SampleListed and SampleTransitions prove what it returns |
| Grid.DrawNextState | game_env.py:103-116 | the cumulative-probability loop with early return computes Sample |
| Grid.SampleFirstExceeding | game_env.py:110-115 | the draw returns the destination of the first entry whose running sum exceeds it |
| Grid.SampleFallBack | game_env.py:116 | when no running sum exceeds the draw, the given state is returned |
| Grid.SampleListed | game_env.py:110-116 | the result is a listed destination or the given state, and always a listed destination when the draw is below the list's total |
| Grid.SampleTransitions | game_env.py:103-116 | a draw in [0, 1) from a transition list lands on one of its entries; the result is always a state, and never a wall when the agent stands off a wall |
| Grid.GameEnv.constructor | game_env.py:5-12 | it keeps the world and places the agent on the start state |
| Grid.GameEnv.Reset | game_env.py:165 | it puts the agent back on the start state |
| GridModel.MdpOfModels | value_iteration.py:46-49 | every grid has its model: the transition lists and rewards the solver reads, one list per action; the model is closed |
| GridModel.ModelsClosed | value_iteration.py:46-49 | every destination in a grid's model is a state |
| Planning.ExpectedReturn | value_iteration.py:47-49 | the sum of p * (reward + gamma * V) over a transition list, accumulated left to right, NaN when any reward is; ExpectedReturnDefined proves when it is a number and EvalAction that the loop computes it |
| Planning.Lookahead | value_iteration.py:46-49 | the expected return of one action's transition list; Lookaheads orders them, OpenCellBackable and CornerWallNotBackable decide when they are numbers |
| Planning.ExpectedReturnDefined | value_iteration.py:47-49 | the accumulated sum over a transition list is a number exactly when no destination is a wall |
| Planning.Lookaheads | value_iteration.py:45-49 | the four lookaheads in action order; entry Index(a) is the lookahead of a |
| Planning.OpenCellBackable | value_iteration.py:44-50 | from a cell that is not a wall, every action's lookahead is a number |
| Planning.CornerWallNotBackable | value_iteration.py:44-51 | on a concrete 2x2 grid with a wall in a corner, every lookahead of the wall includes its own NaN reward, so its backup is -inf |
| Planning.CornerWallKeepsValue | value_iteration.py:44-52 | on the same grid the corrected round keeps the corner wall's value for any table, where the original stores -inf |
| Planning.Backup | value_iteration.py:44-50 | the backup is a number exactly when some action avoids walls |
| Planning.BestOfIsMaxValue | value_iteration.py:44-50 | the loop's running max_v after i actions is the scan maximum of the first i lookaheads |
| Planning.BackupIsBestLookahead | value_iteration.py:44-51 | the backed-up value is the lookahead of some action, and no numeric lookahead exceeds it |
| Planning.NewValue | value_iteration.py:44-51 | the value a round stores: the backup, or the old value where no lookahead is a number (the corrected behaviour, see Findings); RoundAt states it per state |
| Planning.Round | value_iteration.py:42-51 | a round keeps one value per state |
| Planning.RoundFrom | value_iteration.py:43-51 | the new values from state s on have one entry per remaining state |
| Planning.RoundFromAt | value_iteration.py:43-51 | entry i of the new values from s is the new value of state s + i |
| Planning.RoundAt | value_iteration.py:43-51 | each new value is the backup of its state computed from the old table alone (synchronous update); a state with no numeric lookahead keeps its old value (corrected, see Findings) |
| Planning.RoundAsWritten | value_iteration.py:43-51 | where every state has a numeric lookahead, a round stores exactly the original's max_v for every state |
| Planning.Iterate | value_iteration.py:35-42 | the table keeps one value per state after any number of rounds |
| Planning.IterateShift | value_iteration.py:35-42 | starting one round later equals running one more round |
| Planning.Delta | value_iteration.py:41-52 | the sum of the absolute changes in state order; DeltaZeroIffUnchanged proves it is never negative and zero exactly on a fixed point, DeltaStep that the loop accumulates it |
| Planning.DeltaZeroIffUnchanged | value_iteration.py:41-52 | delta is never negative, and it is zero exactly when the round changed no value |
| Planning.DeltaStep | value_iteration.py:52 | each state adds its absolute change to delta |
| Planning.Converge | value_iteration.py:33-58 | the while-loop on plain tables with a round bound; ConvergeMeaning, ConvergeRounds, ConvergeDelta, ConvergeNoEarlierStop and FixedPointStops say what it returns, and Run is proved to compute it |
| Planning.ConvergeMeaning | value_iteration.py:33-58 | the round loop's final table is the start table after the rounds run; when it stops on the test, it ran between 1 and the bound of rounds and the last delta is that round's delta, below epsilon*(1-gamma)/gamma; no earlier round met the test |
| Planning.ConvergeRounds | value_iteration.py:35-42 | the final table is the start table iterated for the number of rounds run |
| Planning.ConvergeDelta | value_iteration.py:41-53 | the returned delta is the last round's delta, and it is below the bound when the loop stopped on the test |
| Planning.ConvergeNoEarlierStop | value_iteration.py:53-58 | every round before the last one had delta at or above the bound |
| Planning.FirstRound | value_iteration.py:40-52 | the first round is one backup of the start table, and its delta compares the two |
| Planning.RoundDeltaShift | value_iteration.py:40-52 | the delta of round k+1 equals the delta of round k counted from the table one round on |
| Planning.FixedPointStops | value_iteration.py:53-58 | a table the backup leaves unchanged stops after one round with delta 0 |
| Planning.EvalAction | value_iteration.py:46-49 | the loop over a transition list computes that action's lookahead |
| Planning.BestBackup | value_iteration.py:44-50 | the loop over the four actions computes the backup |
| Planning.Greedy | value_iteration.py:65-74 | the action compute_policy records, the first strict maximum of the lookaheads; GreedyIsBest and PolicyDefinedOffWalls prove what it picks and when it exists |
| Planning.GreedyIsBest | value_iteration.py:65-74 | a policy action exists exactly for states with a numeric lookahead; it attains the backup, no action's lookahead exceeds it, and every earlier action is strictly worse, so ties keep the first action |
| Planning.PolicyDefinedOffWalls | value_iteration.py:66-74 | off a wall, compute_policy always records an action |
| Planning.BestAction | value_iteration.py:66-74 | compute_policy's action loop ends with the backup as max_v and the first strictly maximal action as the recorded one |
| Planning.ValueIteration.constructor | value_iteration.py:5-8 | values start at 0 and policy entries empty, both of length rows*cols |
| Planning.ValueIteration.Sweep | value_iteration.py:41-52 | after one round the table is Round of the copy taken before it: every state backed up from the copy, a state with no numeric lookahead left as it was; delta is the sum of the absolute changes (corrected, see Findings) |
| Planning.ValueIteration.Run | value_iteration.py:33-58 | the round loop computes Converge from the start table, with threshold epsilon*(1-gamma)/gamma (corrected, see Findings); Threshold is the bound of value_iteration.py:53 |
| Planning.ValueIteration.ComputePolicy | value_iteration.py:65-74 | every state's policy entry becomes the greedy action of the current values when it has one; otherwise the entry keeps its old value |
| Learning.MaxQ | q_learning.py:53 | max of the row's values: one of them, and no value exceeds it |
| Learning.BestKey | q_learning.py:61 | the key max returns holds the maximum, and every key before it in insertion order holds strictly less |
| Learning.TdUpdate | q_learning.py:45-53 | the Q-table after update_q_values; TdUpdateChangesOneEntry proves which entry changes and by how much |
| Learning.TdUpdateChangesOneEntry | q_learning.py:53 | only Q(prev, a) changes; it moves by alpha*(reward + gamma*max Q(curr, .) - Q(prev, a)); alpha 0 leaves the table unchanged; alpha 1 sets the entry to the target |
| Learning.ChooseAction | q_learning.py:39-42 | the random action is returned when the draw is below epsilon or the state has no policy entry; the policy's action is returned otherwise |
| Learning.ModelsOffWalls | game_env.py:62-98 | in a grid's model, no destination from a non-wall state is a wall |
| Learning.StepAction | q_learning.py:74-77 | the action of a step with the epsilon after it: random.choice in episode 0, otherwise get_next_action with one decay; ChooseAction and TrainStepLocal carry its properties |
| Learning.Move | q_learning.py:79-80 | the drawn next state is a state, and it is off walls when the agent stands off walls |
| Learning.TrainStep | q_learning.py:74-83 | a step keeps the tables' shape and lands on a non-wall state |
| Learning.TrainStepLocal | q_learning.py:74-83 | a step changes the Q-table only at (state, action) and the policy only at the state entered, which gets its best key; epsilon decays once, except in episode 0 |
| Learning.ModelsTerminal | q_learning.py:73 | the terminal test read off the model is the grid's is_terminal |
| Learning.Episode | q_learning.py:71-83 | an episode keeps the tables' shape, ends on a non-wall state, and uses no more draws than it was given |
| Learning.Continue | q_learning.py:72-83 | the rest of an episode after its first step keeps the tables' shape, ends on a non-wall state, and uses no more draws than it was given |
| Learning.EpisodeSteps | q_learning.py:71-83 | an episode that ends has taken at least one step; it took exactly one step exactly when it started on a terminal state; one that does not end has used every draw |
| Learning.DecayedTimes | q_learning.py:38 | epsilon after k calls of get_next_action; DecayTwice proves the decays compose, and EpisodeEpsilon and TrainingDecay count them; Decayed is the single multiplication of q_learning.py:38 |
| Learning.DecayTwice | q_learning.py:38 | decaying j times and then k times is decaying j+k times |
| Learning.EpisodeEpsilon | q_learning.py:74-77 | in episode 0 epsilon is unchanged; in a later episode it has been multiplied by eps_decay once per step |
| Learning.Training | q_learning.py:68-83 | training keeps the tables' shape and uses no more draws than it was given |
| Learning.NextEpisode | q_learning.py:68-83 | the episode loop after one episode keeps the tables' shape and uses no more draws than it was given |
| Learning.TrainingUnfold | q_learning.py:68-70 | one episode of the episode loop, then the rest of the loop on the draws left |
| Learning.TrainingStep | q_learning.py:68-83 | after each episode the episode loop either resumes at the next episode or ends |
| Learning.TrainingDecay | q_learning.py:68-83 | from episode 1 on, epsilon is multiplied by eps_decay once per draw used, across episodes; training that stops short has used every draw |
| Learning.QLearning.constructor | q_learning.py:6-11 | the rates are stored, every Q value is 0, and no state has a policy entry |
| Learning.QLearning.GetNextAction | q_learning.py:32-42 | epsilon is multiplied by eps_decay first; the choice compares the draw with the new epsilon; the tables are untouched |
| Learning.QLearning.UpdateQValues | q_learning.py:45-53 | the Q-table becomes TdUpdate of the old one; policy and epsilon are unchanged |
| Learning.QLearning.UpdatePolicy | q_learning.py:56-61 | only the state's policy entry changes, and it becomes the state's best key |
| Learning.QLearning.TakeStep | q_learning.py:74-83 | the body of the step loop computes TrainStep |
| Learning.QLearning.StepPass | q_learning.py:72-83 | read the terminal flag, then take the step; the episode ends here if the flag is set, and otherwise resumes from the next state |
| Learning.QLearning.NextStates | q_learning.py:79 | the environment's list is the model's transition list |
| Learning.QLearning.Reward | q_learning.py:81 | the environment's reward is the model's reward |
| Learning.QLearning.IsTerminalState | q_learning.py:73 | the environment's terminal test is the model's |
| Learning.QLearning.RunEpisode | q_learning.py:69-83 | reset, then step until a step from a terminal state or until the draws run out; the agent, draws used and ended flag are those of Episode; the environment is left on the start state, since the steps move only the local current state |
| Learning.QLearning.Train | q_learning.py:64-83 | nb_episodes episodes from the start state, with the final agent, draws used and completion as Training gives them; the environment ends on the start state after at least one episode and is untouched when there are none |

## Left out

- File parsing (`parse_settings_file` in both solvers), printing, tracing and the interactive `test_env` loop: file and console I/O. The solvers take the grid and numbers directly, and the grid is given as cells, so digits other than 0 to 3 are not modelled.
- `main.py` and the `__main__` blocks: script wiring.
- Python's `random`: `random.random`, `random.uniform` and `random.choice` are replaced by values the caller supplies.
- IEEE floating point: values are exact reals. The 1e-12 test is kept literally (`StayTolerance`). With exact 0.8 and 0.1 masses it drops the self-loop exactly when no sub-move is blocked. NaN and -inf are `None`.
- Proofs that value iteration terminates or that Q-learning converges: both rest on contraction and stochastic-approximation analysis.
- Grid.GameEnv.constructor: requires a well-formed world, one with no row shorter than the first. The original also accepts a grid with a shorter later row and then raises an index error when a cell past that row's end is read. `Grid.Create` models the constructor's own check. A longer row is accepted, and its cells beyond the first row's width are never read.
- Planning.ValueIteration.Sweep: on a state no action of which avoids walls (the corner wall of [[3, 0], [0, 1]]) the model keeps the old value, where the original stores -inf; see Findings.
- Planning.ValueIteration.Run: on such a state the model keeps the old value, where the original stores -inf; the original's delta then becomes inf and NaN and its loop never stops. See Findings.
- Planning.ValueIteration.Run: requires gamma != 0, where the original's threshold divides by zero and raises.
- Planning.ValueIteration.Run: runs at most maxRounds rounds instead of `while True`, and reports whether the test fired.
- Planning.ValueIteration.ComputePolicy: writes each state's entry once, with the final best action. The original overwrites it each time max_v rises; both end with the same entry.
- Learning.QLearning.Train: requires the start cell not to be a wall. On a wall start the original may read a NaN reward from its first step: every action from the bottom-left corner has a blocked sub-move, so a draw that lands on that self-loop gives NaN, while a draw that reaches an open neighbour gives a number.
- Learning.QLearning.Train: an episode is a random walk that may not end, so training stops when the supplied draws run out, and reports complete = false.
- Learning.QLearning.RunEpisode: stops when the supplied draws run out, for the same reason.
- Learning.QLearning.RunEpisode: requires the start cell not to be a wall (`mdp.reward[StartState(env.world)].Some?`), for the same reason as Train: on a wall start the original may read a NaN reward from its first step.
- Learning.QLearning.constructor: takes epsilon and eps_decay as parameters; the original's defaults, 1 and 0.99, are left to the caller.
- The Q-table and policy are sequences indexed by state and by action position, with None for the empty policy entry. The original uses dicts keyed in insertion order.

## Findings

| source | as written | input that shows it | evidently intended | confidence | as-written member | corrected member |
|---|---|---|---|---|---|---|
| value_iteration.py:44-58 | a state none of whose actions avoids walls gets max_v = -inf; delta then becomes inf and, from the next round on, NaN, so `delta < threshold` never holds and `while True` never exits | the grid [[3, 0], [0, 1]]: the wall in the top-left corner has the boundary above it and to its left, so every action has a blocked sub-move that returns onto the wall and its NaN reward | every stored value stays a number so that the stopping test can fire; the model keeps the old value of such a state, which changes nothing on grids where every state has a numeric lookahead | high, not executed | Planning.CornerWallNotBackable | Planning.CornerWallKeepsValue |

The value iteration in the model (`Planning.NewValue`, `Planning.Round` and the
methods `Sweep` and `Run` built on them) uses the corrected rule.
`Planning.RoundAsWritten` proves that it agrees with the original wherever every
state has a numeric lookahead. On the grid above, `compute_policy` leaves the
corner wall's policy entry as it was, as `Planning.ValueIteration.ComputePolicy`
states.
