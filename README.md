# Agent–environment interaction loop

This project models the base of the reinforcement-learning agents in
`src/agent/agent_base.py`. `AgentBase` is the interface with the environment.
It plays an episode by resetting the environment and choosing a first action.
It then steps the environment until a step reports `done`, and hands every
step to the agent's `learn` hook. Along the way it keeps an episode return, a
lifetime `total_reward` and a `global_step` counter. `score` plays
`nb_episodes` episodes and sums their returns. `GreedyAgentBase` fixes the
action space to `0 .. n-1` and rebuilds its epsilon-greedy policy from
`epsilon` on every reset. It chooses actions by handing that policy the table
of action values the concrete agent's `model` gives.

Modules:

- `Environment`: the environment as a class `Env` over a finite stream of step
  outcomes (next state, reward, done) with a cursor `pos`. `Reset` returns the
  start state. `Step` returns the outcome under the cursor and advances it. A
  ghost log `taken` records the actions the environment received.
- `Policy`: the epsilon-greedy policy as a value built from `epsilon`. Its
  choice (`Select`) returns some action of the table it is handed.
- `Episodes`: pure functions over the outcome stream. They give where an
  episode that starts at a position ends (its first `done`), what it returns
  (the sum of its rewards), and where `n` consecutive episodes end and what
  they return in total.
- `Trace`: the sequence of `learn` calls that playing from a stream position
  produces, given the actions chosen, and its properties.
- `Agent`: the class `GreedyAgent`, which holds the fields of both source
  classes. It has the base agent's reset, parameter setting, episode loop and
  scoring loop, plus the greedy agent's constructor, reset, action choice and
  action values. Ghost fields record every action `ChooseAction` returned
  (`chosen`), the state each was chosen in (`chosenIn`), and every call of
  `Learn` (`learned`).

## Model

| member | source | states |
|---|---|---|
| Agent.GreedyAgent.PlayOneEpisode | src/agent/agent_base.py:34-59 | The episode return is the sum of the rewards up to and including the first step flagged `done`. `total_reward` grows by exactly that return. The cursor ends just after that step. `global_step` grows by the number of non-terminal steps. The actions chosen (one at the start, one per non-terminal step) are exactly the actions the environment received, in order. They were chosen in the states `States` gives: the start state first, then the state each non-terminal step reached. The `learn` calls appended are exactly the protocol `Calls` of those steps. |
| Agent.GreedyAgent.Score | src/agent/agent_base.py:61-66 | Plays exactly `nb_episodes` whole episodes. Returns the sum of their returns (0 for no episodes). `total_reward` grows by that sum. The cursor ends after the last episode. `global_step` grows by steps minus episodes. The chosen actions are those the environment received, chosen in the states `States` gives. The `learn` calls are the protocol calls of all those steps. |
| Agent.GreedyAgent.ResetAndScore | src/agent/agent_base.py:61-66 | After a reset, `score` returns the sum of the episode returns, and `total_reward` then equals the returned score. The policy is the one built from the current `epsilon`. |
| Agent.GreedyAgent.ResetCounters | src/agent/agent_base.py:25-27 | The base reset leaves `total_reward` and `global_step` at 0. |
| Agent.GreedyAgent.Reset | src/agent/agent_base.py:82-84 | The greedy reset zeroes both counters and rebuilds the policy from the current `epsilon`. |
| Agent.GreedyAgent.SetParams | src/agent/agent_base.py:29-32 | Every given parameter takes its new value and every other keeps its old value. The counters are 0 afterwards. The policy is rebuilt from the possibly new `epsilon`. |
| Agent.GreedyAgent.constructor | src/agent/agent_base.py:75-80 | Stores the environment, `nb_episodes` and `epsilon` (default 0.1). The action space is `Range(n)` for the environment's `n` actions. The counters start at 0, the policy is built from `epsilon`, and the logs start empty. |
| Agent.GreedyAgent.ActionValues | src/agent/agent_base.py:91-96 | Given an action, returns `model(state, action)`. Without one, returns a table whose keys are exactly the actions below `action_space_dim`, each mapped to `model(state, a)`. |
| Agent.GreedyAgent.ChooseAction | src/agent/agent_base.py:86-89 | Returns an action below `action_space_dim`, which by the contract of `ActionValues` is a key of the table of estimates in `state`. Appends the state asked about to `chosenIn` and the action returned to `chosen`. |
| Agent.GreedyAgent.Learn | src/agent/agent_base.py:21-23 | The learning hook: each call is appended to the record of `learn` calls with exactly the arguments it received. |
| Agent.Range | src/agent/agent_base.py:79 | The action space `[i for i in range(n)]` has length `n` and holds `i` at position `i`. |
| Agent.InRange | src/agent/agent_base.py:79 | An action is in the action space exactly when it is below `n`. |
| Policy.Select | src/agent/agent_base.py:88 | The policy returns a key of the table it is handed. |
| Environment.Env.Reset | src/agent/agent_base.py:35 | Resetting the environment gives the start state. |
| Environment.Env.Step | src/agent/agent_base.py:43 | A step returns the next outcome of the stream, advances the cursor by one and records the action taken. |
| Environment.Env.constructor | src/agent/agent_base.py:35 | A fresh environment has its cursor at the start of the stream and has received no action. |
| Episodes.EpisodeEnd | src/agent/agent_base.py:40-49 | The episode ends at a step flagged `done`, at or after its start, and consumes exactly one terminal step. |
| Episodes.EpisodeEndIsFirst | src/agent/agent_base.py:47-49 | No step before the episode's end is flagged `done`: the loop stops at the first `done`. |
| Episodes.SumRewardsSplit | src/agent/agent_base.py:44 | The rewards summed over a range equal the sum over two adjacent parts. |
| Episodes.EndAfter | src/agent/agent_base.py:63-64 | `n` consecutive episodes end at a step flagged `done`, at least `n` steps on, and consume exactly `n` terminal steps. |
| Episodes.NextEpisode | src/agent/agent_base.py:63-64 | Playing one more episode moves the end to that episode's end and adds its return to the total. |
| Episodes.ReturnsAreConsumedRewards | src/agent/agent_base.py:61-66 | The sum of the returns of `n` episodes is the sum of the rewards of every step they consumed. |
| Trace.LearnProtocol | src/agent/agent_base.py:47-55 | Within one episode, there is one `learn` call per step, with that step's action and reward, and the first call starts in the start state. Every call but the last is for a non-terminal step and hands on the action the next step takes, from the state this step reached. The last call is for the `done` step and hands on `None`. |
| Trace.ChoiceProtocol | src/agent/agent_base.py:36-55 | The action of each step is chosen in the state that step's `learn` call starts from. When a step did not end the episode, the action it hands on to `learn` was chosen in the state that step reached (`choose_action(next_state)`). |
| Trace.CallsAppend | src/agent/agent_base.py:63-64 | The calls of a run that ends on an episode boundary, followed by further steps, are the run's calls followed by those steps' calls. |
| Trace.AppendEpisode | src/agent/agent_base.py:63-64 | One more episode extends the steps taken up to the next episode end and adds that episode's return. It also appends its calls, and the states its actions were chosen in, to those so far. |
| Trace.RunProtocol | src/agent/agent_base.py:47-57 | Across several whole episodes, a call hands on no action exactly when its step ended an episode. After such a call, the next call starts from the start state. Otherwise the next call continues from the reached state with the handed-on action. |
| Trace.LearnedRewardPrefix | src/agent/agent_base.py:44-53 | The rewards handed to the first `k` calls of `learn` add up to the rewards of the first `k` steps. |
| Trace.ReturnsAreLearnedRewards | src/agent/agent_base.py:61-66 | The score of `n` episodes equals the sum of the rewards handed to `learn` while playing them. |

## Left out

- Rendering (`env.render()`, src/agent/agent_base.py:41-42) has no effect on the agent's state and is not modelled. The `render` parameter is dropped.
- The real environment (`env.reset`, `env.step`, the bandit environments) is not part of this model. It is a finite stream of outcomes, and `step` ignores the action when picking the outcome. The fourth value `step` returns (`info`) is dropped because the loop discards it.
- Environment.Env.Reset: always returns the same start state and does not move the cursor. A real environment may draw a fresh start state.
- Policy.Select: states only that the chosen action is a key of the table. The epsilon-greedy draw (`EGreedyPolicy` in `src.utils`) is random and its source is not part of this model.
- Agent.GreedyAgent.ChooseAction: records the state and the action, but not which action the policy drew from the table. It is any key of the table, as for `Policy.Select`.
- Agent.GreedyAgent.ActionValues: the table is a `map`, so the order of `dict(zip(action_space, values))` (actions 0 to n-1) is dropped. A policy whose tie-break depends on that order cannot be told apart here.
- The estimates `model` are a fixed function for the agent's whole life. A concrete agent updates its estimates in `learn`. So the model cannot observe that `choose_action(next_state)` (src/agent/agent_base.py:51) reads the estimates before the `learn` call at line 53 updates them.
- `BanditAgent`, `HyperFitter` and the tests are not part of this model.
- Rewards and action values are integers, not floating point.
- `AgentBase` and `GreedyAgentBase` are merged into one class, because the model has no inheritance. Abstract methods (`ABCMeta`) are not modelled. `learn` is a hook that only records its arguments.
- Agent.GreedyAgent.SetParams: the source sets arbitrary attributes by name (`setattr`). The model covers only the two hyperparameters an agent here has, `epsilon` and `nb_episodes`.
- Agent.GreedyAgent.PlayOneEpisode: requires a terminal step ahead in the stream. On an environment that never reports `done`, the source loops forever. Agent.GreedyAgent.Score requires `nb_episodes` terminal steps ahead, for the same reason.
- Agent.GreedyAgent.constructor: requires the environment to have at least one action. With none, the policy would be handed an empty table, and what it then does is not part of this model.
- `nb_episodes` is a natural number. A negative value, which the source would treat as zero episodes, is not representable.
