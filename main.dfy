/** The training loop and the two evaluation loops of EnergyModel (main.py),
    driving the environment and the agent. Random draws are arbitrary choices. */
module Driver {
  import opened Environment
  import opened QLearning

  /** Five binary dimensions: the state and action sizes EnergyModel configures */
  const Binary5: seq<nat> := [2, 2, 2, 2, 2]

  /** The per-unit gas charge the evaluation loops add to the reported cost */
  const GasSurcharge: real := 0.04

  lemma BinaryInRange(a: seq<int>)
    ensures InRange(Binary5, a) <==> Binary(a)
  {
  }

  /** What learn was given at one step of train_agent */
  datatype Transition = Transition(state: seq<int>, action: seq<int>, reward: real, next: seq<int>)

  /** One step of an evaluation loop: the loop's hour, the environment's clock
      and state before the step, the action, what step returned, and the three
      figures the loop adds to its totals */
  datatype StepRecord = StepRecord(
    hour: int, clock: Clock, state: seq<int>, action: seq<int>,
    reward: real, done: bool, energy: real, gas: real, cost: real)

  datatype Totals = Totals(energy: real, gas: real, cost: real)

  /** The gas figure of the evaluation loops: the heating and cooking bits
      times the gas_heating coefficient, plus the cooking bit times gas_cooking */
  function ReportedGas(p: SeasonProfile, action: seq<int>): real
    requires |action| == 5
  {
    (action[GasHeating] + action[GasCooking]) as real * p.gasHeating.GetOr(0.0)
    + action[GasCooking] as real * p.gasCooking.GetOr(0.0)
  }

  /** The running totals of the evaluation loops after the given steps */
  function Accumulate(trace: seq<StepRecord>): Totals
    decreases |trace|
  {
    if |trace| == 0 then Totals(0.0, 0.0, 0.0)
    else
      var t := Accumulate(trace[..|trace| - 1]);
      var r := trace[|trace| - 1];
      Totals(t.energy + r.energy, t.gas + r.gas, t.cost + (r.cost + r.gas * GasSurcharge))
  }

  function RewardSum(trace: seq<StepRecord>): real
    decreases |trace|
  {
    if |trace| == 0 then 0.0 else RewardSum(trace[..|trace| - 1]) + trace[|trace| - 1].reward
  }

  predicate LeTotals(a: Totals, b: Totals) {
    a.energy <= b.energy && a.gas <= b.gas && a.cost <= b.cost
  }

  /** What one evaluation step computes from the clock and the action */
  ghost predicate StepFacts(p: SeasonProfile, numRooms: int, r: StepRecord) {
    && |r.action| == 5
    && r.hour == r.clock.hour
    && r.reward == Reward(p, numRooms, r.clock.hour, r.action)
    && r.done == Done(Tick(r.clock))
    && r.energy == -r.reward / ElectricityPrice(r.hour)
    && r.cost == -r.reward
    && r.gas == ReportedGas(p, r.action)
  }

  /** The first steps of an evaluation pass from a reset, with binary actions */
  ghost predicate EvaluationPrefix(p: SeasonProfile, numRooms: int, trace: seq<StepRecord>) {
    && (|trace| > 0 ==> trace[0].state == InitialState)
    && (forall i :: 0 <= i < |trace| ==>
          trace[i].clock == ClockAt(i) && Binary(trace[i].action) && StepFacts(p, numRooms, trace[i]))
    && (forall i :: 0 < i < |trace| ==> trace[i].state == Corrected(trace[i - 1].action))
  }

  /** A whole evaluation pass: 90 days of 24 steps */
  ghost predicate IsEvaluation(p: SeasonProfile, numRooms: int, trace: seq<StepRecord>) {
    |trace| == EpisodeSteps && EvaluationPrefix(p, numRooms, trace)
  }

  /** Every transition of the sequence is between binary vectors */
  predicate BinaryTransitions(ep: seq<Transition>) {
    forall i :: 0 <= i < |ep| ==> Binary(ep[i].state) && Binary(ep[i].action) && Binary(ep[i].next)
  }

  /** The first steps of a training episode from a reset */
  ghost predicate EpisodePrefix(p: SeasonProfile, numRooms: int, ep: seq<Transition>) {
    && (|ep| > 0 ==> ep[0].state == InitialState)
    && BinaryTransitions(ep)
    && (forall i :: 0 <= i < |ep| ==>
          && ep[i].next == Corrected(ep[i].action)
          && ep[i].reward == Reward(p, numRooms, ClockAt(i).hour, ep[i].action))
    && (forall i :: 0 < i < |ep| ==> ep[i].state == ep[i - 1].next)
  }

  /** A whole training episode: 2160 steps from a reset */
  ghost predicate IsEpisode(p: SeasonProfile, numRooms: int, ep: seq<Transition>) {
    |ep| == EpisodeSteps && EpisodePrefix(p, numRooms, ep)
  }

  /** A table of the size five binary state and five binary action dimensions give */
  predicate BinaryTable(q: seq<real>) {
    |q| == Prod(Binary5) * Prod(Binary5) && Prod(Binary5) > 0
  }

  /** The table after learn is given one binary transition */
  function LearnedFrom(q: seq<real>, alpha: real, gamma: real, t: Transition): (q': seq<real>)
    requires BinaryTable(q) && Binary(t.state) && Binary(t.action) && Binary(t.next)
    ensures BinaryTable(q')
  {
    BinaryInRange(t.state);
    BinaryInRange(t.action);
    BinaryInRange(t.next);
    Learned(Binary5, Binary5, q, alpha, gamma, t.state, t.action, t.reward, t.next)
  }

  /** The table after learning from each transition of an episode in turn */
  function Replay(q: seq<real>, alpha: real, gamma: real, ep: seq<Transition>): (q': seq<real>)
    requires BinaryTable(q) && BinaryTransitions(ep)
    ensures BinaryTable(q')
    decreases |ep|
  {
    if |ep| == 0 then q
    else LearnedFrom(Replay(q, alpha, gamma, ep[..|ep| - 1]), alpha, gamma, ep[|ep| - 1])
  }

  /** The table after replaying each episode in turn */
  function ReplayEpisodes(q: seq<real>, alpha: real, gamma: real, episodes: seq<seq<Transition>>): (q': seq<real>)
    requires BinaryTable(q)
    requires forall i :: 0 <= i < |episodes| ==> BinaryTransitions(episodes[i])
    ensures BinaryTable(q')
    decreases |episodes|
  {
    if |episodes| == 0 then q
    else
      var n := |episodes| - 1;
      Replay(ReplayEpisodes(q, alpha, gamma, episodes[..n]), alpha, gamma, episodes[n])
  }

  /** The transition's action is the greedy action of its state in table q */
  predicate GreedyChoice(q: seq<real>, t: Transition)
    requires BinaryTable(q)
  {
    InRange(Binary5, t.state) && t.action == GreedyAction(Binary5, Binary5, q, t.state)
  }

  /** With exploration off, every transition's action is the greedy action of
      its state in the table learned from the transitions before it */
  ghost predicate GreedyReplay(q: seq<real>, alpha: real, gamma: real, ep: seq<Transition>)
    requires BinaryTable(q) && BinaryTransitions(ep)
    decreases |ep|
  {
    |ep| == 0 ||
    var n := |ep| - 1;
    && GreedyReplay(q, alpha, gamma, ep[..n])
    && GreedyChoice(Replay(q, alpha, gamma, ep[..n]), ep[n])
  }

  /** With exploration off, every episode is played greedily against the table
      the episodes before it have trained */
  ghost predicate GreedyTraining(q: seq<real>, alpha: real, gamma: real, history: seq<seq<Transition>>)
    requires BinaryTable(q)
    requires forall i :: 0 <= i < |history| ==> BinaryTransitions(history[i])
    decreases |history|
  {
    |history| == 0 ||
    var n := |history| - 1;
    && GreedyTraining(q, alpha, gamma, history[..n])
    && GreedyReplay(ReplayEpisodes(q, alpha, gamma, history[..n]), alpha, gamma, history[n])
  }

  /** Every episode of the history is a whole training episode */
  ghost predicate AllEpisodes(p: SeasonProfile, numRooms: int, history: seq<seq<Transition>>) {
    forall i :: 0 <= i < |history| ==> IsEpisode(p, numRooms, history[i]) && BinaryTransitions(history[i])
  }

  /** What the step loop of an episode keeps: the table is the replay of the
      transitions so far, and with exploration off they were chosen greedily */
  ghost predicate LearnedSoFar(q0: seq<real>, alpha: real, gamma: real, epsilon: real,
                               episode: seq<Transition>, q: seq<real>)
  {
    && BinaryTable(q0) && BinaryTransitions(episode)
    && q == Replay(q0, alpha, gamma, episode)
    && (epsilon <= 0.0 ==> GreedyReplay(q0, alpha, gamma, episode))
  }

  /** What the episode loop keeps: the history is whole episodes, the table is
      their replay, and with exploration off they were played greedily */
  ghost predicate TrainedOn(q0: seq<real>, alpha: real, gamma: real, epsilon: real,
                            p: SeasonProfile, numRooms: int, history: seq<seq<Transition>>, q: seq<real>)
  {
    && BinaryTable(q0) && AllEpisodes(p, numRooms, history)
    && q == ReplayEpisodes(q0, alpha, gamma, history)
    && (epsilon <= 0.0 ==> GreedyTraining(q0, alpha, gamma, history))
  }

  // ---------------------------------------------------------------- lemmas

  /** One more transition, learned by the table so far, keeps the step loop's invariant */
  lemma LearnedSoFarExtend(q0: seq<real>, alpha: real, gamma: real, epsilon: real,
                           episode: seq<Transition>, q: seq<real>, t: Transition, q': seq<real>)
    requires LearnedSoFar(q0, alpha, gamma, epsilon, episode, q)
    requires Binary(t.state) && Binary(t.action) && Binary(t.next)
    requires q' == LearnedFrom(q, alpha, gamma, t)
    requires epsilon <= 0.0 ==> InRange(Binary5, t.state) && t.action == GreedyAction(Binary5, Binary5, q, t.state)
    ensures LearnedSoFar(q0, alpha, gamma, epsilon, episode + [t], q')
  {
    var ep' := episode + [t];
    assert ep'[..|episode|] == episode && ep'[|episode|] == t;
    assert BinaryTransitions(ep');
  }

  /** One more whole episode, trained from the table so far, keeps the loop's invariant */
  lemma TrainedOnExtend(q0: seq<real>, alpha: real, gamma: real, epsilon: real,
                        p: SeasonProfile, numRooms: int, history: seq<seq<Transition>>, q: seq<real>,
                        ep: seq<Transition>, q': seq<real>)
    requires TrainedOn(q0, alpha, gamma, epsilon, p, numRooms, history, q)
    requires IsEpisode(p, numRooms, ep) && BinaryTransitions(ep)
    requires q' == Replay(q, alpha, gamma, ep)
    requires epsilon <= 0.0 ==> GreedyReplay(q, alpha, gamma, ep)
    ensures TrainedOn(q0, alpha, gamma, epsilon, p, numRooms, history + [ep], q')
  {
    AllEpisodesExtend(p, numRooms, history, ep);
    assert (history + [ep])[..|history|] == history;
  }

  lemma AllEpisodesExtend(p: SeasonProfile, numRooms: int, history: seq<seq<Transition>>, ep: seq<Transition>)
    requires AllEpisodes(p, numRooms, history) && IsEpisode(p, numRooms, ep) && BinaryTransitions(ep)
    ensures AllEpisodes(p, numRooms, history + [ep])
  {
  }

  /** Step i of a greedy episode took the greedy action of the table the
      first i transitions trained */
  lemma {:induction false} GreedyReplayAt(q: seq<real>, alpha: real, gamma: real, ep: seq<Transition>, i: nat)
    requires BinaryTable(q) && BinaryTransitions(ep) && GreedyReplay(q, alpha, gamma, ep)
    requires i < |ep|
    ensures BinaryTransitions(ep[..i])
    ensures GreedyChoice(Replay(q, alpha, gamma, ep[..i]), ep[i])
    decreases |ep|
  {
    var n := |ep| - 1;
    var front := ep[..n];
    if i < n {
      assert BinaryTransitions(front) by {
        assert forall j :: 0 <= j < |front| ==> front[j] == ep[j];
      }
      assert GreedyReplay(q, alpha, gamma, front);
      GreedyReplayAt(q, alpha, gamma, front, i);
      assert front[..i] == ep[..i] && front[i] == ep[i];
    }
  }

  /** Step k of a greedy training history was played greedily against the
      table the first k episodes trained */
  lemma {:induction false} GreedyTrainingAt(q: seq<real>, alpha: real, gamma: real,
                                            history: seq<seq<Transition>>, k: nat)
    requires BinaryTable(q)
    requires forall i :: 0 <= i < |history| ==> BinaryTransitions(history[i])
    requires GreedyTraining(q, alpha, gamma, history) && k < |history|
    ensures forall i :: 0 <= i < |history[..k]| ==> BinaryTransitions(history[..k][i])
    ensures GreedyReplay(ReplayEpisodes(q, alpha, gamma, history[..k]), alpha, gamma, history[k])
    decreases |history|
  {
    var n := |history| - 1;
    var front := history[..n];
    if k < n {
      assert forall j :: 0 <= j < |front| ==> BinaryTransitions(front[j]) by {
        assert forall j :: 0 <= j < |front| ==> front[j] == history[j];
      }
      assert GreedyTraining(q, alpha, gamma, front);
      GreedyTrainingAt(q, alpha, gamma, front, k);
      assert front[..k] == history[..k] && front[k] == history[k];
    }
  }

  /** Replaying transitions with non-positive rewards keeps a non-positive table non-positive */
  lemma {:induction false} ReplayKeepsNonPositive(q: seq<real>, alpha: real, gamma: real, ep: seq<Transition>)
    requires BinaryTable(q) && BinaryTransitions(ep) && AllNonPositive(q)
    requires 0.0 <= alpha <= 1.0 && gamma >= 0.0
    requires forall i :: 0 <= i < |ep| ==> ep[i].reward <= 0.0
    ensures AllNonPositive(Replay(q, alpha, gamma, ep))
    decreases |ep|
  {
    if |ep| > 0 {
      var n := |ep| - 1;
      var front := ep[..n];
      assert forall i :: 0 <= i < |front| ==> front[i] == ep[i];
      ReplayKeepsNonPositive(q, alpha, gamma, front);
      var t := ep[n];
      BinaryInRange(t.state);
      BinaryInRange(t.action);
      BinaryInRange(t.next);
      LearnedKeepsNonPositive(Binary5, Binary5, Replay(q, alpha, gamma, front), alpha, gamma,
                              t.state, t.action, t.reward, t.next);
    }
  }

  /** Training on whole episodes of non-positive rewards keeps a non-positive table non-positive */
  lemma {:induction false} ReplayEpisodesKeepNonPositive(q: seq<real>, alpha: real, gamma: real,
                                                         p: SeasonProfile, numRooms: int, history: seq<seq<Transition>>)
    requires BinaryTable(q) && AllNonPositive(q) && AllEpisodes(p, numRooms, history)
    requires NonNegative(p) && numRooms >= 0 && 0.0 <= alpha <= 1.0 && gamma >= 0.0
    ensures AllNonPositive(ReplayEpisodes(q, alpha, gamma, history))
    decreases |history|
  {
    if |history| > 0 {
      var n := |history| - 1;
      assert AllEpisodes(p, numRooms, history[..n]);
      ReplayEpisodesKeepNonPositive(q, alpha, gamma, p, numRooms, history[..n]);
      EpisodeRewardsNonPositive(p, numRooms, history[n]);
      ReplayKeepsNonPositive(ReplayEpisodes(q, alpha, gamma, history[..n]), alpha, gamma, history[n]);
    }
  }

  /** Every reward of an episode is non-positive */
  lemma EpisodeRewardsNonPositive(p: SeasonProfile, numRooms: int, ep: seq<Transition>)
    requires EpisodePrefix(p, numRooms, ep) && NonNegative(p) && numRooms >= 0
    ensures forall i :: 0 <= i < |ep| ==> ep[i].reward <= 0.0
  {
    forall i | 0 <= i < |ep|
      ensures ep[i].reward <= 0.0
    {
      RewardNonPositive(p, numRooms, ClockAt(i).hour, ep[i].action);
    }
  }

  /** One more evaluation step, taken at the clock the trace has reached, extends the prefix */
  lemma EvaluationPrefixExtend(p: SeasonProfile, numRooms: int, trace: seq<StepRecord>, r: StepRecord)
    requires EvaluationPrefix(p, numRooms, trace)
    requires r.clock == ClockAt(|trace|) && Binary(r.action) && StepFacts(p, numRooms, r)
    requires |trace| == 0 ==> r.state == InitialState
    requires |trace| > 0 ==> r.state == Corrected(trace[|trace| - 1].action)
    ensures EvaluationPrefix(p, numRooms, trace + [r])
  {
  }

  /** One more transition, taken from the state the episode has reached, extends the prefix */
  lemma EpisodePrefixExtend(p: SeasonProfile, numRooms: int, ep: seq<Transition>, t: Transition)
    requires EpisodePrefix(p, numRooms, ep)
    requires Binary(t.state) && Binary(t.action) && t.next == Corrected(t.action)
    requires t.reward == Reward(p, numRooms, ClockAt(|ep|).hour, t.action)
    requires |ep| == 0 ==> t.state == InitialState
    requires |ep| > 0 ==> t.state == ep[|ep| - 1].next
    ensures EpisodePrefix(p, numRooms, ep + [t])
  {
  }

  /** Step d * 24 + h of an episode happens at hour h of day d */
  lemma ClockAtDayHour(d: nat, h: int)
    requires 0 <= h < HoursPerDay
    ensures d * HoursPerDay + h >= 0
    ensures ClockAt(d * HoursPerDay + h) == Clock(h, d)
  {
    DivModOf(d, h, HoursPerDay);
  }

  /** energy_used divides the whole cost, gas included, by the electricity price */
  lemma ReportedEnergyIncludesGasCost(p: SeasonProfile, numRooms: int, hour: int, action: seq<int>)
    requires |action| == 5
    ensures -Reward(p, numRooms, hour, action) / ElectricityPrice(hour)
         == ElectricityUsed(p, numRooms, action)
            + GasUsed(p, action) * (GasPrice / 100.0) / ElectricityPrice(hour)
  {
    var price := ElectricityPrice(hour);
    assert price > 0.0;
  }

  /** In exact arithmetic the loops' cost of a step is minus its reward */
  lemma CostIsNegatedReward(reward: real, hour: int)
    ensures (-reward / ElectricityPrice(hour)) * ElectricityPrice(hour) == -reward
  {
    assert ElectricityPrice(hour) > 0.0;
  }

  lemma ReportedGasNonNegative(p: SeasonProfile, action: seq<int>)
    requires NonNegative(p) && Binary(action)
    ensures ReportedGas(p, action) >= 0.0
  {
    MulNonNegative((action[GasHeating] + action[GasCooking]) as real, p.gasHeating.GetOr(0.0));
    MulNonNegative(action[GasCooking] as real, p.gasCooking.GetOr(0.0));
  }

  /** The total cost is minus the sum of the rewards plus the gas surcharge on the total gas */
  lemma {:induction false} CostIsNegatedRewardPlusSurcharge(trace: seq<StepRecord>)
    requires forall i :: 0 <= i < |trace| ==> trace[i].cost == -trace[i].reward
    ensures Accumulate(trace).cost == -RewardSum(trace) + GasSurcharge * Accumulate(trace).gas
    decreases |trace|
  {
    if |trace| > 0 {
      var front := trace[..|trace| - 1];
      assert forall i :: 0 <= i < |front| ==> front[i] == trace[i];
      CostIsNegatedRewardPlusSurcharge(front);
    }
  }

  /** Steps that add nothing negative make every total grow with the prefix */
  lemma {:induction false} AccumulateMonotone(trace: seq<StepRecord>, i: nat, j: nat)
    requires i <= j <= |trace|
    requires forall k :: 0 <= k < |trace| ==>
      trace[k].energy >= 0.0 && trace[k].gas >= 0.0 && trace[k].cost + trace[k].gas * GasSurcharge >= 0.0
    ensures LeTotals(Accumulate(trace[..i]), Accumulate(trace[..j]))
    decreases j
  {
    if i < j {
      AccumulateMonotone(trace, i, j - 1);
      assert trace[..j][..j - 1] == trace[..j - 1];
    }
  }

  /** Gas is never negative, so the total gas grows with the prefix whatever the room count */
  lemma {:induction false} GasMonotone(trace: seq<StepRecord>, i: nat, j: nat)
    requires i <= j <= |trace|
    requires forall k :: 0 <= k < |trace| ==> trace[k].gas >= 0.0
    ensures Accumulate(trace[..i]).gas <= Accumulate(trace[..j]).gas
    decreases j
  {
    if i < j {
      GasMonotone(trace, i, j - 1);
      assert trace[..j][..j - 1] == trace[..j - 1];
    }
  }

  /** The signs of one evaluation step's figures */
  lemma StepSigns(p: SeasonProfile, numRooms: int, r: StepRecord)
    requires StepFacts(p, numRooms, r) && Binary(r.action) && NonNegative(p)
    ensures r.gas >= 0.0
    ensures numRooms >= 0 ==> r.reward <= 0.0 && r.energy >= 0.0
    ensures numRooms >= 0 ==> r.cost + r.gas * GasSurcharge >= 0.0
  {
    ReportedGasNonNegative(p, r.action);
    if numRooms >= 0 {
      RewardNonPositive(p, numRooms, r.hour, r.action);
      assert ElectricityPrice(r.hour) > 0.0;
    }
  }

  /** What a whole evaluation pass amounts to: done on the last step only,
      the cost identity, and non-negative totals that never decrease. */
  lemma EvaluationFigures(p: SeasonProfile, numRooms: int, trace: seq<StepRecord>)
    requires IsEvaluation(p, numRooms, trace) && NonNegative(p)
    ensures forall i :: 0 <= i < |trace| ==> (trace[i].done <==> i == EpisodeSteps - 1)
    ensures Accumulate(trace).cost == -RewardSum(trace) + GasSurcharge * Accumulate(trace).gas
    ensures forall i :: 0 <= i < |trace| ==> trace[i].gas >= 0.0
    ensures forall i, j :: 0 <= i <= j <= |trace| ==> Accumulate(trace[..i]).gas <= Accumulate(trace[..j]).gas
    ensures Accumulate(trace).gas >= 0.0
    ensures numRooms >= 0 ==> forall i :: 0 <= i < |trace| ==> trace[i].reward <= 0.0
    ensures numRooms >= 0 ==> forall i, j :: 0 <= i <= j <= |trace| ==>
              LeTotals(Accumulate(trace[..i]), Accumulate(trace[..j]))
    ensures numRooms >= 0 ==>
              Accumulate(trace).energy >= 0.0 && Accumulate(trace).gas >= 0.0 && Accumulate(trace).cost >= 0.0
  {
    forall i | 0 <= i < |trace|
      ensures trace[i].done <==> i == EpisodeSteps - 1
    {
      TickAdvances(i);
    }
    forall i | 0 <= i < |trace|
      ensures trace[i].gas >= 0.0
      ensures numRooms >= 0 ==> trace[i].reward <= 0.0 && trace[i].energy >= 0.0
      ensures numRooms >= 0 ==> trace[i].cost + trace[i].gas * GasSurcharge >= 0.0
    {
      StepSigns(p, numRooms, trace[i]);
    }
    CostIsNegatedRewardPlusSurcharge(trace);
    forall i, j | 0 <= i <= j <= |trace|
      ensures Accumulate(trace[..i]).gas <= Accumulate(trace[..j]).gas
    {
      GasMonotone(trace, i, j);
    }
    GasMonotone(trace, 0, |trace|);
    assert trace[..0] == [] && trace[..|trace|] == trace;
    if numRooms >= 0 {
      forall i, j | 0 <= i <= j <= |trace|
        ensures LeTotals(Accumulate(trace[..i]), Accumulate(trace[..j]))
      {
        AccumulateMonotone(trace, i, j);
      }
      AccumulateMonotone(trace, 0, |trace|);
      assert trace[..0] == [] && trace[..|trace|] == trace;
    }
  }

  lemma AccumulateSnoc(trace: seq<StepRecord>, r: StepRecord)
    ensures Accumulate(trace + [r])
         == Totals(Accumulate(trace).energy + r.energy, Accumulate(trace).gas + r.gas,
                   Accumulate(trace).cost + (r.cost + r.gas * GasSurcharge))
  {
    assert (trace + [r])[..|trace|] == trace;
  }

  /** What an evaluation loop keeps between steps: the environment has taken
      exactly the steps of the trace, and the totals are the sums of their figures */
  ghost predicate Evaluating(env: EnergyEnvironment, p: SeasonProfile, numRooms: int,
                             state: seq<int>, trace: seq<StepRecord>, totals: Totals)
    reads env
  {
    && env.Valid() && env.profile == p && env.numRooms == numRooms
    && env.CurrentClock() == ClockAt(|trace|)
    && state == env.state && Binary(state)
    && EvaluationPrefix(p, numRooms, trace)
    && (|trace| == 0 ==> state == InitialState)
    && (|trace| > 0 ==> state == Corrected(trace[|trace| - 1].action))
    && totals == Accumulate(trace)
  }

  /** One step of an evaluation loop: step the environment, then work out the
      step's energy, gas and cost figures, priced at the loop's own hour */
  method AccountStep(env: EnergyEnvironment, hour: int, action: seq<int>)
    returns (state: seq<int>, record: StepRecord)
    requires env.Valid() && hour == env.hour && Binary(action)
    modifies env
    ensures env.Valid() && state == env.state && state == Corrected(action)
    ensures env.CurrentClock() == Tick(old(env.CurrentClock()))
    ensures record.clock == old(env.CurrentClock()) && record.state == old(env.state)
    ensures record.action == action && StepFacts(env.profile, env.numRooms, record)
  {
    var clock := env.CurrentClock();
    var before := env.state;
    var reward, done;
    state, reward, done := env.Step(action);
    var price := if 7 <= hour < 17 || 19 <= hour < 23 then PeakPrice / 100.0 else OffPeakPrice / 100.0;
    var energyUsed := -reward / price;
    var cost := energyUsed * price;
    CostIsNegatedReward(reward, hour);
    var gasUsed := (action[3] + action[4]) as real * env.profile.gasHeating.GetOr(0.0)
                   + action[4] as real * env.profile.gasCooking.GetOr(0.0);
    record := StepRecord(hour, clock, before, action, reward, done, energyUsed, gasUsed, cost);
  }

  /** An accounted step, added to the evaluation loop's trace and running totals */
  method EvaluationStep(env: EnergyEnvironment, hour: int, action: seq<int>,
                        ghost trace: seq<StepRecord>, totals: Totals)
    returns (state: seq<int>, ghost trace': seq<StepRecord>, totals': Totals)
    requires Evaluating(env, env.profile, env.numRooms, env.state, trace, totals)
    requires hour == env.hour && Binary(action)
    modifies env
    ensures Evaluating(env, env.profile, env.numRooms, state, trace', totals')
    ensures |trace'| == |trace| + 1 && trace' == trace + [trace'[|trace|]]
    ensures trace'[|trace|].state == old(env.state) && trace'[|trace|].action == action
    ensures trace'[|trace|].hour == hour
  {
    var record;
    state, record := AccountStep(env, hour, action);
    TickAdvances(|trace|);
    EvaluationPrefixExtend(env.profile, env.numRooms, trace, record);
    AccumulateSnoc(trace, record);
    trace' := trace + [record];
    totals' := Totals(totals.energy + record.energy, totals.gas + record.gas,
                      totals.cost + (record.cost + record.gas * GasSurcharge));
  }

  /** Every recorded action is the greedy action for its recorded state */
  ghost predicate PlayedGreedily(q: seq<real>, trace: seq<StepRecord>)
  {
    && |q| == Prod(Binary5) * Prod(Binary5) && Prod(Binary5) > 0
    && forall i :: 0 <= i < |trace| ==>
         InRange(Binary5, trace[i].state) &&
         trace[i].action == GreedyAction(Binary5, Binary5, q, trace[i].state)
  }

  lemma PlayedGreedilyExtend(q: seq<real>, trace: seq<StepRecord>, r: StepRecord)
    requires PlayedGreedily(q, trace) && InRange(Binary5, r.state)
    requires r.action == GreedyAction(Binary5, Binary5, q, r.state)
    ensures PlayedGreedily(q, trace + [r])
  {
  }

  /** What the training loop keeps between steps: the environment has taken
      exactly the steps of the episode so far */
  ghost predicate Training(env: EnergyEnvironment, p: SeasonProfile, numRooms: int,
                           state: seq<int>, episode: seq<Transition>)
    reads env
  {
    && env.Valid() && env.profile == p && env.numRooms == numRooms
    && |episode| <= EpisodeSteps
    && env.CurrentClock() == ClockAt(|episode|)
    && state == env.state && Binary(state)
    && EpisodePrefix(p, numRooms, episode)
    && (|episode| == 0 ==> state == InitialState)
    && (|episode| > 0 ==> state == episode[|episode| - 1].next)
  }

  /** The environment's part of a training step: the transition it produces */
  method EpisodeStep(env: EnergyEnvironment, state: seq<int>, action: seq<int>,
                     ghost episode: seq<Transition>)
    returns (nextState: seq<int>, reward: real, done: bool, ghost episode': seq<Transition>)
    requires Training(env, env.profile, env.numRooms, state, episode)
    requires |episode| < EpisodeSteps && Binary(action)
    modifies env
    ensures Training(env, env.profile, env.numRooms, nextState, episode')
    ensures episode' == episode + [Transition(state, action, reward, nextState)]
    ensures reward == Reward(env.profile, env.numRooms, ClockAt(|episode|).hour, action)
    ensures done == (|episode'| >= EpisodeSteps)
  {
    TickAdvances(|episode|);
    nextState, reward, done := env.Step(action);
    EpisodePrefixExtend(env.profile, env.numRooms, episode, Transition(state, action, reward, nextState));
    episode' := episode + [Transition(state, action, reward, nextState)];
  }

  class EnergyModel {
    const numHouseholds: int
    const numRooms: int
    const season: string
    const agent: QLearningAgent

    ghost predicate Valid()
      reads this, agent
    {
      agent.Valid() && agent.stateSize == Binary5 && agent.actionSize == Binary5 && Prod(Binary5) == 32
    }

    /** The settings under which learning keeps a non-positive table non-positive */
    predicate LearningStaysNonPositive()
      reads this, agent
    {
      0.0 <= agent.alpha <= 1.0 && agent.gamma >= 0.0 && numRooms >= 0
    }

    /** An agent over five binary state and action dimensions, with a 1024-cell zero table */
    constructor (numHouseholds: int, numRooms: int, season: string)
      ensures Valid() && fresh(agent) && fresh(agent.table)
      ensures this.numHouseholds == numHouseholds && this.numRooms == numRooms && this.season == season
      ensures agent.alpha == 0.1 && agent.gamma == 0.95 && agent.epsilon == 0.05
      ensures agent.table.Length == 1024
      ensures forall k :: 0 <= k < agent.table.Length ==> agent.table[k] == 0.0
    {
      this.numHouseholds := numHouseholds;
      this.numRooms := numRooms;
      this.season := season;
      agent := new QLearningAgent(Binary5, Binary5);
      BinaryTableSize();
    }

    /** Runs the given number of episodes, each from a reset until done,
        learning from every transition. */
    method TrainAgent(episodes: int := 2000) returns (r: Result<()>, ghost history: seq<seq<Transition>>)
      requires Valid()
      modifies agent.table
      ensures r.Ok? <==> IsSeason(season)
      ensures r.Err? ==> r.error == UnknownSeason && history == []
      ensures r.Ok? ==> |history| == if episodes < 0 then 0 else episodes
      ensures r.Ok? ==> AllEpisodes(SeasonalParameters(season).value, numRooms, history)
      ensures forall i :: 0 <= i < |history| ==> BinaryTransitions(history[i])
      ensures agent.table[..] == ReplayEpisodes(old(agent.table[..]), agent.alpha, agent.gamma, history)
      ensures r.Ok? && agent.epsilon <= 0.0 ==> GreedyTraining(old(agent.table[..]), agent.alpha, agent.gamma, history)
      ensures r.Ok? && LearningStaysNonPositive() && AllNonPositive(old(agent.table[..])) ==>
                AllNonPositive(agent.table[..])
    {
      var created := EnergyEnvironment.Create(numRooms, season);
      if created.Err? {
        r := Err(created.error);
        history := [];
        return;
      }
      var env := created.value;
      // range(episodes) is empty for a negative count
      history := RunEpisodes(env, if episodes < 0 then 0 else episodes);
      r := Ok(());
    }

    /** The episode loop of train_agent, over one environment */
    method RunEpisodes(env: EnergyEnvironment, episodes: nat) returns (ghost history: seq<seq<Transition>>)
      requires Valid() && env.Valid() && env.numRooms == numRooms
      modifies env, agent.table
      ensures |history| == episodes && AllEpisodes(env.profile, numRooms, history)
      ensures forall i :: 0 <= i < |history| ==> BinaryTransitions(history[i])
      ensures agent.table[..] == ReplayEpisodes(old(agent.table[..]), agent.alpha, agent.gamma, history)
      ensures agent.epsilon <= 0.0 ==> GreedyTraining(old(agent.table[..]), agent.alpha, agent.gamma, history)
      ensures LearningStaysNonPositive() && AllNonPositive(old(agent.table[..])) ==>
                AllNonPositive(agent.table[..])
    {
      ghost var q0 := agent.table[..];
      history := [];
      for episode := 0 to episodes
        invariant env.Valid() && env.numRooms == numRooms
        invariant |history| == episode
        invariant TrainedOn(q0, agent.alpha, agent.gamma, agent.epsilon, env.profile, numRooms, history, agent.table[..])
      {
        ghost var q := agent.table[..];
        var ep := RunEpisode(env);
        TrainedOnExtend(q0, agent.alpha, agent.gamma, agent.epsilon, env.profile, numRooms,
                        history, q, ep, agent.table[..]);
        history := history + [ep];
      }
      if LearningStaysNonPositive() && AllNonPositive(q0) {
        ReplayEpisodesKeepNonPositive(q0, agent.alpha, agent.gamma, env.profile, numRooms, history);
      }
    }

    /** One episode of training: reset, then choose an action, step and learn
        from the transition until the environment reports done. */
    method RunEpisode(env: EnergyEnvironment) returns (ghost episode: seq<Transition>)
      requires Valid() && env.Valid() && env.numRooms == numRooms
      modifies env, agent.table
      ensures env.Valid()
      ensures IsEpisode(env.profile, numRooms, episode) && BinaryTransitions(episode)
      ensures agent.table[..] == Replay(old(agent.table[..]), agent.alpha, agent.gamma, episode)
      ensures agent.epsilon <= 0.0 ==> GreedyReplay(old(agent.table[..]), agent.alpha, agent.gamma, episode)
      ensures LearningStaysNonPositive() && AllNonPositive(old(agent.table[..])) ==>
                AllNonPositive(agent.table[..])
    {
      var profile := env.profile;
      ghost var q0 := agent.table[..];
      var state := env.Reset();
      var done := false;
      episode := [];
      while !done
        invariant Training(env, profile, numRooms, state, episode)
        invariant done == (|episode| >= EpisodeSteps)
        invariant LearnedSoFar(q0, agent.alpha, agent.gamma, agent.epsilon, episode, agent.table[..])
        decreases EpisodeSteps - |episode|
      {
        ghost var before, q := episode, agent.table[..];
        state, done, episode := TrainingStep(env, state, episode);
        LearnedSoFarExtend(q0, agent.alpha, agent.gamma, agent.epsilon, before, q,
                           episode[|before|], agent.table[..]);
      }
      if LearningStaysNonPositive() && AllNonPositive(q0) {
        EpisodeRewardsNonPositive(profile, numRooms, episode);
        ReplayKeepsNonPositive(q0, agent.alpha, agent.gamma, episode);
      }
    }

    /** The agent's choice for a binary state, with the uniform draw and the
        random action of exploration taken from the environment's randomness */
    method PolicyAction(state: seq<int>) returns (action: seq<int>)
      requires Valid() && Binary(state)
      ensures Binary(action)
      ensures agent.epsilon <= 0.0 ==>
                InRange(Binary5, state) &&
                action == GreedyAction(Binary5, Binary5, agent.table[..], state)
    {
      var draw: real :| 0.0 <= draw < 1.0;
      assert InRange(Binary5, [0, 0, 0, 0, 0]);
      var explore: seq<int> :| InRange(Binary5, explore);
      BinaryInRange(state);
      action := agent.ChooseAction(state, draw, explore);
      BinaryInRange(action);
    }

    /** One pass of the training loop's body: choose an action for the current
        state, step the environment and learn from the transition, with the
        action as chosen and not as the environment corrected it. */
    method TrainingStep(env: EnergyEnvironment, state: seq<int>, ghost episode: seq<Transition>)
      returns (nextState: seq<int>, done: bool, ghost episode': seq<Transition>)
      requires Valid() && Training(env, env.profile, numRooms, state, episode)
      requires |episode| < EpisodeSteps
      modifies env, agent.table
      ensures Training(env, env.profile, numRooms, nextState, episode')
      ensures |episode'| == |episode| + 1 && episode' == episode + [episode'[|episode|]]
      ensures episode'[|episode|].state == state && nextState == episode'[|episode|].next
      ensures done == (|episode'| >= EpisodeSteps)
      ensures agent.table[..] == LearnedFrom(old(agent.table[..]), agent.alpha, agent.gamma, episode'[|episode|])
      ensures agent.epsilon <= 0.0 ==>
                InRange(Binary5, state) &&
                episode'[|episode|].action == GreedyAction(Binary5, Binary5, old(agent.table[..]), state)
    {
      var action := PolicyAction(state);
      var reward;
      nextState, reward, done, episode' := EpisodeStep(env, state, action, episode);
      assert episode'[..|episode|] == episode;
      BinaryInRange(state);
      BinaryInRange(action);
      BinaryInRange(nextState);
      agent.Learn(state, action, reward, nextState);
    }

    /** One pass of the exploitation loop's body: the agent chooses the action
        (exploring with probability epsilon), and the step is accounted. */
    method PolicyStep(env: EnergyEnvironment, hour: int, state: seq<int>,
                      ghost trace: seq<StepRecord>, totals: Totals)
      returns (state': seq<int>, ghost trace': seq<StepRecord>, totals': Totals)
      requires Valid() && Evaluating(env, env.profile, env.numRooms, state, trace, totals)
      requires hour == env.hour
      modifies env
      ensures Evaluating(env, env.profile, env.numRooms, state', trace', totals')
      ensures |trace'| == |trace| + 1 && trace' == trace + [trace'[|trace|]]
      ensures trace'[|trace|].state == state && InRange(Binary5, state)
      ensures agent.epsilon <= 0.0 ==>
                trace'[|trace|].action == GreedyAction(Binary5, Binary5, agent.table[..], state)
    {
      BinaryInRange(state);
      var action := PolicyAction(state);
      state', trace', totals' := EvaluationStep(env, hour, action, trace, totals);
    }

    /** The 24 hours of one evaluation day under the agent's policy */
    method PolicyDay(env: EnergyEnvironment, day: nat, state: seq<int>,
                     ghost trace: seq<StepRecord>, totals: Totals)
      returns (state': seq<int>, ghost trace': seq<StepRecord>, totals': Totals)
      requires Valid() && |trace| == day * HoursPerDay
      requires Evaluating(env, env.profile, env.numRooms, state, trace, totals)
      requires agent.epsilon <= 0.0 ==> PlayedGreedily(agent.table[..], trace)
      modifies env
      ensures |trace'| == (day + 1) * HoursPerDay
      ensures Evaluating(env, env.profile, env.numRooms, state', trace', totals')
      ensures agent.epsilon <= 0.0 ==> PlayedGreedily(agent.table[..], trace')
    {
      state', trace', totals' := state, trace, totals;
      for hour := 0 to HoursPerDay
        invariant |trace'| == day * HoursPerDay + hour
        invariant Evaluating(env, env.profile, env.numRooms, state', trace', totals')
        invariant agent.epsilon <= 0.0 ==> PlayedGreedily(agent.table[..], trace')
      {
        ClockAtDayHour(day, hour);
        ghost var before := trace';
        state', trace', totals' := PolicyStep(env, hour, state', trace', totals');
        if agent.epsilon <= 0.0 {
          PlayedGreedilyExtend(agent.table[..], before, trace'[|before|]);
        }
      }
    }

    /** Evaluates the agent's policy (exploration still on) for 90 days of 24 hours */
    method TestAgentExploitation() returns (r: Result<Totals>, ghost trace: seq<StepRecord>)
      requires Valid()
      ensures r.Ok? <==> IsSeason(season)
      ensures r.Err? ==> r.error == UnknownSeason
      ensures r.Ok? ==> IsEvaluation(SeasonalParameters(season).value, numRooms, trace)
      ensures r.Ok? ==> r.value == Accumulate(trace)
      ensures r.Ok? ==> forall i :: 0 <= i < |trace| ==> trace[i].hour == trace[i].clock.hour
      ensures r.Ok? ==> forall i :: 0 <= i < |trace| ==> (trace[i].done <==> i == EpisodeSteps - 1)
      ensures r.Ok? ==> r.value.cost == -RewardSum(trace) + GasSurcharge * r.value.gas
      ensures r.Ok? && agent.epsilon <= 0.0 ==> PlayedGreedily(agent.table[..], trace)
      ensures r.Ok? ==> r.value.gas >= 0.0
      ensures r.Ok? && numRooms >= 0 ==> r.value.energy >= 0.0 && r.value.cost >= 0.0
    {
      var created := EnergyEnvironment.Create(numRooms, season);
      if created.Err? {
        r := Err(created.error);
        trace := [];
        return;
      }
      var env := created.value;
      var profile := env.profile;
      var state := env.Reset();
      var totals := Totals(0.0, 0.0, 0.0);
      assert InRange(Binary5, [0, 0, 0, 0, 0]);
      trace := [];
      for day := 0 to Horizon
        invariant |trace| == day * HoursPerDay
        invariant Evaluating(env, profile, numRooms, state, trace, totals)
        invariant agent.epsilon <= 0.0 ==> PlayedGreedily(agent.table[..], trace)
      {
        state, trace, totals := PolicyDay(env, day, state, trace, totals);
      }
      EvaluationFigures(profile, numRooms, trace);
      r := Ok(totals);
    }

    /** The 24 hours of one evaluation day under uniformly random binary actions */
    static method RandomDay(env: EnergyEnvironment, day: nat, state: seq<int>,
                            ghost trace: seq<StepRecord>, totals: Totals)
      returns (state': seq<int>, ghost trace': seq<StepRecord>, totals': Totals)
      requires |trace| == day * HoursPerDay
      requires Evaluating(env, env.profile, env.numRooms, state, trace, totals)
      modifies env
      ensures |trace'| == (day + 1) * HoursPerDay
      ensures Evaluating(env, env.profile, env.numRooms, state', trace', totals')
    {
      state', trace', totals' := state, trace, totals;
      for hour := 0 to HoursPerDay
        invariant |trace'| == day * HoursPerDay + hour
        invariant Evaluating(env, env.profile, env.numRooms, state', trace', totals')
      {
        ClockAtDayHour(day, hour);
        assert Binary([0, 0, 0, 0, 0]);
        var action: seq<int> :| |action| == |state'| && Binary(action);
        state', trace', totals' := EvaluationStep(env, hour, action, trace', totals');
      }
    }

    /** The baseline: the same 90 x 24 accounting with uniformly random binary actions */
    method TestRandomPolicy() returns (r: Result<Totals>, ghost trace: seq<StepRecord>)
      ensures r.Ok? <==> IsSeason(season)
      ensures r.Err? ==> r.error == UnknownSeason
      ensures r.Ok? ==> IsEvaluation(SeasonalParameters(season).value, numRooms, trace)
      ensures r.Ok? ==> r.value == Accumulate(trace)
      ensures r.Ok? ==> forall i :: 0 <= i < |trace| ==> trace[i].hour == trace[i].clock.hour
      ensures r.Ok? ==> forall i :: 0 <= i < |trace| ==> (trace[i].done <==> i == EpisodeSteps - 1)
      ensures r.Ok? ==> r.value.cost == -RewardSum(trace) + GasSurcharge * r.value.gas
      ensures r.Ok? ==> r.value.gas >= 0.0
      ensures r.Ok? && numRooms >= 0 ==> r.value.energy >= 0.0 && r.value.cost >= 0.0
    {
      var created := EnergyEnvironment.Create(numRooms, season);
      if created.Err? {
        r := Err(created.error);
        trace := [];
        return;
      }
      var env := created.value;
      var profile := env.profile;
      var state := env.Reset();
      var totals := Totals(0.0, 0.0, 0.0);
      trace := [];
      for day := 0 to Horizon
        invariant |trace| == day * HoursPerDay
        invariant Evaluating(env, profile, numRooms, state, trace, totals)
      {
        state, trace, totals := RandomDay(env, day, state, trace, totals);
      }
      EvaluationFigures(profile, numRooms, trace);
      r := Ok(totals);
    }
  }
}
