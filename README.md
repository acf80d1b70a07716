# Household energy Q-learning core, in Dafny

This project models the reinforcement-learning core of a household energy
simulator and proves properties of the model. The core has three parts:

- `EnergyEnvironment`, a small state machine. It keeps an hour/day clock and a
  five-bit appliance state `[light, washing_machine, fridge, gas_heating,
  gas_cooking]`. Each step prices the hour's electricity at the peak or
  off-peak rate and its gas at the fixed gas rate, and returns minus the
  total as the reward.
- `QLearningAgent`, a dense table of action values over five binary state
  dimensions and five binary action dimensions. Its ε-greedy `choose_action`
  picks the first maximum of the state's row. `learn` is the one-step
  Q-learning update.
- `EnergyModel`, which drives the other two:
  - `train_agent` runs reset / choose / step / learn until done, once per
    episode.
  - `test_agent_exploitation` and `test_random_policy` each run a 90 × 24
    hour loop that totals the energy, gas and cost figures.

Layout, one Dafny module per source file:

- `energy_environment.dfy`, module `Environment`:
  - a `SeasonProfile` datatype, with `Option` fields for coefficients a season
    lacks;
  - `SeasonalParameters`, which returns a `Result` and fails on an unknown
    season;
  - the class `EnergyEnvironment`, whose `Reset` and `Step` update `hour`,
    `day` and `state` in place;
  - the pure functions `Reward`, `ElectricityUsed`, `GasUsed`,
    `ElectricityPrice` and `Tick` that state what one step computes.
- `q_learning_agent.dfy`, module `QLearning`:
  - the table is a flat `array<real>` in row-major order;
  - `Flat`/`Unravel` are the row-major position of a multi-index and its
    inverse, as numpy's tuple indexing and `unravel_index` use them;
  - `ArgMax` is numpy's first-maximum `argmax`;
  - `Learned` is the table after one update;
  - the class `QLearningAgent` has `ChooseAction`, `Learn` and
    `UpdateEpsilon`.
- `main.dfy`, module `Driver`:
  - the class `EnergyModel` with its training and evaluation loops;
  - ghost traces record every step: `Transition` for training, `StepRecord`
    for evaluation;
  - the specification functions the loops are proved against:
    - `Accumulate`, the running totals;
    - `Replay` and `ReplayEpisodes`, the table after learning from each
      transition in turn;
    - the predicates `IsEpisode` and `IsEvaluation`.

Randomness is modelled as parameters or arbitrary choice:

- `ChooseAction` takes the uniform draw in [0, 1) and the exploration vector as
  arguments.
- The driver loops pick them with `:|`, so every proved property holds for
  every outcome of the random draws.
- Prices, coefficients, rewards and values are `real` numbers.

Behaviours of the source kept as they are:

- `learn` receives the action as chosen, whose fridge bit may be 0, not the
  corrected state (`Driver.EnergyModel.TrainingStep`).
- The loops' `energy_used` divides the whole cost, gas included, by the
  electricity price (`Driver.ReportedEnergyIncludesGasCost`).
- The loops' `gas_used` is (gas_heating bit + gas_cooking bit) × the
  gas_heating coefficient, plus gas_cooking bit × the gas_cooking coefficient.
  It has none of the step's ×3 / ×2 factors (`Driver.ReportedGas`).
- The evaluation loops price each step by their own `hour` variable; it is
  proved equal to the environment's clock hour.
- `step` keeps running after `done`; `Environment.DoneStaysDone` shows that
  `done` stays true.
- `test_agent_exploitation` calls the ε-greedy `choose_action`, so it still
  explores with probability ε. Only with ε ≤ 0 is every action proved greedy.

Two facts about the code that shape the model:

- The code has exactly two seasons, winter and summer. Gas heating is a
  coefficient that only winter defines.
- The room count is never checked, so the sign results assume
  `numRooms >= 0`.

`Environment.SummerScenario` checks one summer step of a one-room house from
a reset: `step([1,0,0,0,0])` at hour 0. It asserts the returned state
`[1,0,1,0,0]`, `done == false`, and the reward
`-(0.5·0.05 + 0.12 + 0.10) · 22.36/100`.

## Model

| member | source | states |
|---|---|---|
| Environment.SeasonalParameters | energy_environment.py:21-45 | succeeds exactly for "winter" and "summer", with the listed coefficient tables; any other season yields the one configuration error, which, like the fixed message the source raises, does not name the season; heating only in winter, cooling only in summer; all coefficients non-negative and the fridge's positive |
| Environment.EnergyEnvironment.constructor | energy_environment.py:13-19 | room count, season and resolved profile stored; clock at hour 0 of day 0; state `[0,0,1,0,0]` |
| Environment.EnergyEnvironment.Create | energy_environment.py:6-19 | construction, with the defaults of one room and winter, succeeds iff the season is winter or summer, else fails with the season error; on success a fresh environment with the season's profile, the clock at 0/0 and the initial state |
| Environment.EnergyEnvironment.Reset | energy_environment.py:47-51 | hour and day set to 0, state set to and returned as `[0,0,1,0,0]` |
| Environment.EnergyEnvironment.Step | energy_environment.py:53-88 | new state = the action with the fridge bit forced to 1, and it is what is returned; reward = `Reward` of the profile, room count, hour before the step and the action; the clock advances by one tick with rollover at 24; done iff day ≥ 90 |
| Environment.Corrected | energy_environment.py:81 | the stored state has the fridge bit 1 and the other four components of the action copied unchanged; a binary action gives a binary state |
| Environment.ElectricityUsed | energy_environment.py:57-61 | computes one hour's electricity: lighting · 0.5 · numRooms, washing machine · 1.5 and fridge · 1 with the fridge bit fixed at 1, plus the season's fixed heating or cooling draw (lines 68-71); `Environment.FridgeBitIgnored`, `Environment.WinterBaseLoad` and `Environment.SummerBaseLoad` state its properties |
| Environment.GasUsed | energy_environment.py:63-66 | computes one hour's gas: gas_heating bit · 3 · gas_heating coefficient plus gas_cooking bit · 2 · gas_cooking coefficient, with 0 for a coefficient the season lacks; `Environment.SummerBaseLoad` and `Environment.RewardNonPositive` state its properties |
| Environment.ElectricityPrice | energy_environment.py:73-76 | computes the hour's rate: peak 24.50/100 inside the two peak windows, off-peak 22.36/100 otherwise; `Environment.PeakPriceWindows` states it |
| Environment.Reward | energy_environment.py:78-79 | computes minus the hour's cost: electricity · electricity rate plus gas · gas rate; `Environment.RewardNonPositive` and `Environment.FridgeBitIgnored` state its properties |
| Environment.FridgeBitIgnored | energy_environment.py:54-60 | the action's fridge bit has no effect on the reward |
| Environment.RewardNonPositive | energy_environment.py:57-79 | for binary actions, non-negative coefficients and numRooms ≥ 0 the reward is ≤ 0, and < 0 when the fridge coefficient is positive |
| Environment.PeakPriceWindows | energy_environment.py:73-76 | the peak rate 24.50/100 applies iff 7 ≤ hour < 17 or 19 ≤ hour < 23, the off-peak rate 22.36/100 otherwise |
| Environment.WinterBaseLoad | energy_environment.py:57-69 | winter electricity = lighting + washing machine + fridge + a fixed 2·0.30 of heating, whatever the action |
| Environment.SummerBaseLoad | energy_environment.py:57-71 | summer electricity = lighting + washing machine + fridge + a fixed 1·0.10 of cooling; the gas heating bit adds no gas in summer; summer gas = cooking bit · 2 · 0.8 |
| Environment.Tick | energy_environment.py:82-85 | computes one clock tick: the next hour, or hour 0 of the next day after hour 23; `Environment.TickAdvances`, `Environment.TicksFromMidnight`, `Environment.FullDay` and `Environment.HourInRange` state its properties |
| Environment.TickAdvances | energy_environment.py:82-85 | one tick from the clock after k steps is the clock after k+1 steps |
| Environment.TicksFromMidnight | energy_environment.py:82-85 | n steps from hour 0 of day d reach hour n mod 24 of day d + n div 24 |
| Environment.FullDay | energy_environment.py:82-85 | 24 steps from hour 0 add exactly one day and return the hour to 0 |
| Environment.HourInRange | energy_environment.py:82-85 | the hour stays in [0, 24) however many steps are taken |
| Environment.DayNeverDecreases | energy_environment.py:82-85 | the day counter never decreases along a run |
| Environment.Done | energy_environment.py:86 | computes whether the episode is over: the day has reached 90; `Environment.DoneExactlyFromEpisodeEnd` and `Environment.DoneStaysDone` state when it holds |
| Environment.DoneExactlyFromEpisodeEnd | energy_environment.py:82-86 | from a reset, done is false for the first 2159 steps and true from step 2160 on |
| Environment.DoneStaysDone | energy_environment.py:82-86 | once done holds it holds for every later step |
| QLearning.Flat | q_learning_agent.py:25-47 | computes the row-major position of a multi-index, which is how numpy addresses `q_table[tuple(state)][tuple(action)]`; `QLearning.FlatInRange`, `QLearning.UnravelFlat` and `QLearning.FlatInjective` state its properties |
| QLearning.Unravel | q_learning_agent.py:65 | computes numpy's `unravel_index`: the multi-index at a row-major position, last dimension fastest; `QLearning.UnravelFlat` and `QLearning.FlatUnravel` state that it inverts `Flat` |
| QLearning.FlatInRange | q_learning_agent.py:25-47 | an in-range multi-index has a row-major position in [0, Prod(dims)) |
| QLearning.UnravelFlat | q_learning_agent.py:62-65 | unravelling the row-major position of an in-range multi-index gives it back |
| QLearning.FlatUnravel | q_learning_agent.py:62-65 | every position below Prod(dims) unravels to an in-range multi-index whose position it is |
| QLearning.FlatInjective | q_learning_agent.py:25-47 | distinct in-range multi-indices have distinct positions |
| QLearning.ProdConcat | q_learning_agent.py:23 | the table of shape state_size + action_size has Prod(state_size) · Prod(action_size) cells |
| QLearning.FlatConcat | q_learning_agent.py:58 | the position of (s, a) in the concatenated shape is the row of s times the row length plus the position of a |
| QLearning.Offset | q_learning_agent.py:58-89 | computes the flat cell of (state, action): the state's row times the row length plus the action's position; `QLearning.OffsetIsRowMajor`, `QLearning.OffsetInBounds` and `QLearning.OffsetInjective` state its properties |
| QLearning.OffsetIsRowMajor | q_learning_agent.py:85 | the flat offset of cell (s, a) is its row-major position in the table of shape state_size + action_size |
| QLearning.RowBounds | q_learning_agent.py:58 | the row of an in-range state lies inside the table |
| QLearning.OffsetInBounds | q_learning_agent.py:85 | the offset of an in-range (s, a) lies inside the table |
| QLearning.OffsetInjective | q_learning_agent.py:80-89 | two in-range (state, action) pairs address the same cell iff they are equal |
| QLearning.Q | q_learning_agent.py:85-89 | the value of cell (s, a), `q_table[state_index][action_index]`, read at its flat offset; `QLearning.RowEntry` and `QLearning.LearnedWritesOneCell` state its properties |
| QLearning.Row | q_learning_agent.py:58 | the row of a state holds one value per action |
| QLearning.RowEntry | q_learning_agent.py:58 | entry Flat(a) of the row of s is the value of cell (s, a) |
| QLearning.ArgMax | q_learning_agent.py:62 | the returned position is in range, holds a maximum, and every earlier position holds a strictly smaller value (the first maximum) |
| QLearning.MaxOf | q_learning_agent.py:86 | computes `np.max` of a row as the value at its first maximum; `QLearning.ArgMax`'s ensures make it no smaller than any entry |
| QLearning.GreedyAction | q_learning_agent.py:58-67 | computes the exploit branch: the state's row, its first maximum, unravelled to an action; `QLearning.GreedyActionIsFirstBest` states that it is in range, maximal and the first such |
| QLearning.GreedyActionIsFirstBest | q_learning_agent.py:58-67 | the greedy action is in range, its value is the row's maximum, no action is worth more, and every action worth as much comes no earlier in row-major order |
| QLearning.TdUpdate | q_learning_agent.py:89 | computes current + α · (reward + γ · next max − current); `QLearning.TdUpdateNonPositive` states its sign |
| QLearning.Learned | q_learning_agent.py:85-89 | the table after one `learn`, of the same size; `QLearning.LearnedWritesOneCell` states that exactly cell (s, a) changes, to the update of values read before the write |
| QLearning.LearnedWritesOneCell | q_learning_agent.py:85-89 | after learning, cell (s, a) holds cur + α(r + γ·max of the next state's row − cur), all read before the write, and every other cell is unchanged |
| QLearning.TdUpdateNonPositive | q_learning_agent.py:89 | with current and next values ≤ 0, reward ≤ 0, α in [0, 1] and γ ≥ 0 the updated value is ≤ 0 |
| QLearning.LearnedKeepsNonPositive | q_learning_agent.py:85-89 | learning from a non-positive reward, with α in [0, 1] and γ ≥ 0, keeps a table with no positive cell without one |
| QLearning.QLearningAgent.constructor | q_learning_agent.py:4-23 | sizes, α, γ and ε stored, defaulting to 0.1, 0.95 and 0.05; the table has Prod(state_size + action_size) cells, all zero |
| QLearning.QLearningAgent.ChooseAction | q_learning_agent.py:49-67 | the action is in range; a draw below ε returns the exploration vector, otherwise the greedy action, whose value is the largest and which is the first such in row-major order; ε ≤ 0 always exploits and ε ≥ 1 always explores |
| QLearning.QLearningAgent.Learn | q_learning_agent.py:70-89 | the new table is `Learned` of the old one: one cell updated by the TD rule |
| QLearning.QLearningAgent.UpdateEpsilon | q_learning_agent.py:91-98 | ε becomes ε·decay; α, γ and the table are unchanged |
| QLearning.BinaryTableSize | q_learning_agent.py:23 | five binary dimensions give 32 states and 32 actions, a 1024-cell table |
| Driver.ClockAtDayHour | main.py:37-38 | step day·24 + hour of a run from a reset happens at that hour of that day, so the loop's hour is the environment's hour |
| Driver.ReportedEnergyIncludesGasCost | main.py:41 | energy_used is the electricity used plus the gas cost converted at the electricity price |
| Driver.CostIsNegatedReward | main.py:41-42 | in exact arithmetic a step's cost is minus its reward |
| Driver.ReportedGas | main.py:45 | computes the loops' gas figure: (gas_heating bit + gas_cooking bit) · gas_heating coefficient plus gas_cooking bit · gas_cooking coefficient; `Driver.ReportedGasNonNegative` states its sign |
| Driver.ReportedGasNonNegative | main.py:45 | the loops' gas figure is ≥ 0 for binary actions |
| Driver.CostIsNegatedRewardPlusSurcharge | main.py:46-48 | total cost = −Σ reward + 0.04 · total gas |
| Driver.Accumulate | main.py:46-48 | computes the three running totals of a trace: energy, gas, and cost plus 0.04 · gas per step; `Driver.AccumulateSnoc`, `Driver.AccumulateMonotone`, `Driver.GasMonotone` and `Driver.CostIsNegatedRewardPlusSurcharge` state its properties |
| Driver.AccumulateMonotone | main.py:46-48 | when no step adds a negative figure, each total of a prefix is at most that of a longer prefix |
| Driver.StepSigns | main.py:41-48 | a step's gas is ≥ 0; with numRooms ≥ 0 its reward is ≤ 0, its energy ≥ 0 and what it adds to the cost ≥ 0 |
| Driver.GasMonotone | main.py:45-47 | when no step's gas is negative, the total gas of a prefix is at most that of a longer prefix |
| Driver.EvaluationFigures | main.py:37-50 | over a 2160-step evaluation: done only on the last step; the cost identity; every step's gas ≥ 0, so total gas never decreases and ends ≥ 0 for any room count; with numRooms ≥ 0 every reward ≤ 0, all totals never decrease, and the final energy and cost are ≥ 0 |
| Driver.AccumulateSnoc | main.py:46-48 | one more step adds its energy, its gas and its cost plus 0.04 · gas to the totals |
| Driver.AccountStep | main.py:40-45 | steps the environment and records the clock before the step, the state, action and reward, energy = −reward / price of the loop's hour, cost = −reward, and gas computed from the uncorrected action |
| Driver.EvaluationStep | main.py:40-48 | the accounted step extends the trace by one record and the totals by its figures, keeping the loop's invariant |
| Driver.EpisodeStep | main.py:26 | the environment's transition extends the episode: it starts from the current state, and the next state is the corrected action |
| Driver.Replay | main.py:24-28 | the table after `learn` on each transition of an episode in turn, still a 1024-cell table; `Driver.ReplayKeepsNonPositive` states its sign, and `Driver.EnergyModel.RunEpisode` that the training loop computes it |
| Driver.ReplayEpisodes | main.py:21-28 | the table after replaying each episode in turn, still a 1024-cell table; `Driver.ReplayEpisodesKeepNonPositive` states its sign, and `Driver.EnergyModel.TrainAgent` that training computes it |
| Driver.GreedyReplayAt | main.py:25-27 | in an episode played with exploration off, step i took the greedy action of its state in the table the first i transitions had trained |
| Driver.GreedyTrainingAt | main.py:21-28 | in a history trained with exploration off, episode k was played greedily against the table the first k episodes had trained |
| Driver.ReplayKeepsNonPositive | main.py:24-28 | learning from transitions with non-positive rewards keeps a non-positive table non-positive |
| Driver.ReplayEpisodesKeepNonPositive | main.py:21-28 | training on whole episodes, from a non-positive table (the zero table included), with α in [0, 1], γ ≥ 0 and numRooms ≥ 0, leaves no positive cell |
| Driver.EpisodeRewardsNonPositive | main.py:26 | every reward of a training episode is ≤ 0 when numRooms ≥ 0 |
| Driver.EnergyModel.constructor | main.py:9-16 | an agent over five binary state and five binary action dimensions with the agent's default α 0.1, γ 0.95, ε 0.05 and a 1024-cell zero table |
| Driver.EnergyModel.TrainAgent | main.py:18-28 | fails iff the season is unknown, leaving the table unchanged; otherwise runs exactly max(0, episodes) episodes (2000 by default), each a whole 2160-step episode; the final table is the old one after `learn` on every transition of every episode in order; with ε ≤ 0 every action is the greedy one of the table trained so far; a non-positive table stays non-positive |
| Driver.EnergyModel.RunEpisodes | main.py:21-28 | the given number of whole episodes, with the table replayed over all of them; with ε ≤ 0 each episode played greedily against the table the episodes before it trained |
| Driver.EnergyModel.RunEpisode | main.py:22-28 | from a reset, exactly 2160 step/learn pairs until done; each learns from the state passed to choose_action, the action it returned and the step's reward and next state, and the state then advances to the next state; the final table is the replay of those transitions; with ε ≤ 0 each action is the greedy action of its state in the table learned so far |
| Driver.EnergyModel.TrainingStep | main.py:25-28 | one transition appended, from the current state; the table becomes `learn` applied to it; with ε ≤ 0 its action is the greedy action of the state in the table before the update; done iff 2160 steps have been taken |
| Driver.EnergyModel.PolicyAction | main.py:25 | a binary action; with ε ≤ 0 it is the greedy action of the state |
| Driver.EnergyModel.PolicyStep | main.py:39-48 | one accounted step from the current state, greedy when ε ≤ 0 |
| Driver.EnergyModel.PolicyDay | main.py:38-48 | 24 more accounted steps, keeping the loop's invariant and greediness |
| Driver.EnergyModel.TestAgentExploitation | main.py:30-50 | fails iff the season is unknown; otherwise exactly 2160 steps from a reset whose records satisfy the step facts; the loop's hour equals the clock hour; done only on the last step; the totals equal the accumulated figures and cost = −Σ reward + 0.04 · gas; with ε ≤ 0 every action is greedy; the total gas is ≥ 0, and with numRooms ≥ 0 the total energy and cost are ≥ 0 too |
| Driver.EnergyModel.RandomDay | main.py:92-102 | 24 more accounted steps with arbitrary binary actions, keeping the loop's invariant |
| Driver.EnergyModel.TestRandomPolicy | main.py:84-104 | the same 2160-step accounting and the same ensures as the exploitation test, without the greedy clause, with arbitrary five-bit binary actions |

## Left out

- `save_q_table` / `load_q_table` (q_learning_agent.py:100-116): file I/O. With `load_q_table` left out, nothing reassigns the table (q_learning_agent.py:116 would, with no check on the shape), so the model's table array is a constant field.
- `render` (energy_environment.py:90-91) and the prints and graph call of `run` (main.py:52-82): console output and plotting only. graph_generator.py is not part of this model.
- The household population model: models/model.py and models/agent.py are not part of this model. main.py:13 builds it but the learning core never reads it, so `numHouseholds` is only stored. Building it fails for more than 137 households: models/model.py:29 indexes the 137-entry list of models/model.py:25 and raises IndexError. `Driver.EnergyModel.constructor` always succeeds.
- The gym `MultiDiscrete` space declarations (energy_environment.py:10-11): library metadata with no behaviour.
- Randomness: `np.random.rand`, `randint` and `choice` become parameters or arbitrary choices. Nothing is claimed about their distributions.
- IEEE-754 rounding: all prices, coefficients, rewards and values are exact `real`s. The cost identities hold in exact arithmetic only.
- numpy's negative-index wrap-around and its IndexError on too-large indices (q_learning_agent.py:58, :85): the agent's contracts require in-range indices. The driver loops only ever pass binary vectors.
- Environment.EnergyEnvironment.Step: requires a five-component action, as does `Environment.Corrected`. On any other length the source's unpacking at energy_environment.py:54 raises ValueError. The driver only passes five-bit actions.
- QLearning.QLearningAgent.ChooseAction: requires a non-empty action space (`Prod(actionSize) > 0`), as do `QLearning.QLearningAgent.Learn` and `QLearning.GreedyAction`. With a zero-size dimension the source fails: `randint` with a zero bound raises at q_learning_agent.py:54, and `argmax` of an empty row raises at :62. The driver's action space has 32 actions.
- Driver.EvaluationFigures: the energy and cost totals "never decrease" only when numRooms ≥ 0. A negative room count can make the lighting term, and so a reward, positive. The gas total is monotone for any room count.
- Environment.RewardNonPositive: likewise stated for numRooms ≥ 0, since the source does not check the room count.
