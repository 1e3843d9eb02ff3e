/**
 * The reward the training binary plugs into the balance task, and the
 * Q-table shape it configures (`examples/acrobot-qtable/src/bin/train.rs`).
 */
module Train {
  import opened ObjectIds
  import opened Model
  import opened AcrobotCommon
  import opened AcrobotLib

  /** `f64::abs`. */
  function Abs(x: real): (r: real)
    ensures r >= 0.0 && (r == x || r == -x)
  {
    if x < 0.0 then -x else x
  }

  /** The centre bucket of `d` bins, `d / 2` as a float. */
  function Centre(d: nat): real {
    d as real / 2.0
  }

  /** An integer square is never negative, and is zero only at zero. */
  lemma IntSquareSign(k: int)
    ensures k * k >= 0 && (k * k == 0 <==> k == 0)
  {
  }

  /**
   * The squared distance of a bucket from the centre, `(d / 2 - n)^2`, is
   * `(d - 2n)^2 / 4`; so it is never negative and is zero exactly on the
   * centre.
   */
  lemma OffCentreSquare(d: nat, n: nat)
    ensures var e := Centre(d) - n as real;
      && e * e == ((d - 2 * n) * (d - 2 * n)) as real / 4.0
      && e * e >= 0.0
      && (e * e == 0.0 <==> n as real == Centre(d))
  {
    var k := d - 2 * n;
    IntSquareSign(k);
    assert Centre(d) - n as real == k as real / 2.0;
  }

  /** All four buckets lie within one of their axis' centre bucket. */
  predicate NearCentre(task: AcrobotBalanceTask, s: AcrobotState) {
    var (cp, ca) := (Centre(task.n_pendulum_digitization), Centre(task.n_arm_digitization));
    && Abs(s.n_pendulum_rad as real - cp) < 1.0
    && Abs(s.n_arm_rad as real - ca) < 1.0
    && Abs(s.n_pendulum_vel as real - cp) < 1.0
    && Abs(s.n_arm_vel as real - ca) < 1.0
  }

  /** `(d / 2 - n).powi(2)`: the squared distance of bucket `n` from the centre of `d` bins. */
  function SquaredError(d: nat, n: nat): (r: real)
    ensures r >= 0.0
    ensures r == 0.0 <==> n as real == Centre(d)
  {
    OffCentreSquare(d, n);
    (Centre(d) - n as real) * (Centre(d) - n as real)
  }

  /**
   * The position term: 10 less a weighted squared distance of the two angle
   * buckets from their centres. It reaches its maximum 10 exactly when both
   * angle buckets sit on their centres.
   */
  function PositionReward(task: AcrobotBalanceTask, s: AcrobotState): (r: real)
    ensures r <= 10.0
    ensures r == 10.0 <==>
      s.n_pendulum_rad as real == Centre(task.n_pendulum_digitization) && s.n_arm_rad as real == Centre(task.n_arm_digitization)
  {
    var pendulum_pos_error := SquaredError(task.n_pendulum_digitization, s.n_pendulum_rad);
    var arm_pos_error := SquaredError(task.n_arm_digitization, s.n_arm_rad);
    10.0 - (0.2 * pendulum_pos_error + 0.1 * arm_pos_error)
  }

  /** The velocity term: a weighted squared distance of the two velocity buckets from their centres, zero exactly on the centres. */
  function VelocityPenalty(task: AcrobotBalanceTask, s: AcrobotState): (r: real)
    ensures r >= 0.0
    ensures r == 0.0 <==>
      s.n_pendulum_vel as real == Centre(task.n_pendulum_digitization) && s.n_arm_vel as real == Centre(task.n_arm_digitization)
  {
    var pendulum_vel_error := SquaredError(task.n_pendulum_digitization, s.n_pendulum_vel);
    var arm_vel_error := SquaredError(task.n_arm_digitization, s.n_arm_vel);
    0.001 * pendulum_vel_error + 0.002 * arm_vel_error
  }

  /**
   * The action term: 0.01 times the distance of the rung from the middle
   * rung `(action_size - 1) / 2`. It is zero exactly on the middle rung; the
   * subtraction needs at least one action.
   */
  function ActionCost(task: AcrobotBalanceTask, a: AcrobotAction): (r: real)
    requires task.action_size >= 1
    ensures r >= 0.0
    ensures r == 0.0 <==> a.digitization_index as real == (task.action_size - 1) as real / 2.0
  {
    0.01 * Abs((task.action_size - 1) as real / 2.0 - a.digitization_index as real)
  }

  /** A rung nearer the middle costs less. */
  lemma ActionCostMonotone(task: AcrobotBalanceTask, a: AcrobotAction, b: AcrobotAction)
    requires task.action_size >= 1
    requires var c := (task.action_size - 1) as real / 2.0;
      Abs(a.digitization_index as real - c) < Abs(b.digitization_index as real - c)
    ensures ActionCost(task, a) < ActionCost(task, b)
  {
  }

  /** With an even number of actions there is no middle rung, so every action costs something. */
  lemma EvenActionSizeAlwaysCosts(task: AcrobotBalanceTask, a: AcrobotAction)
    requires task.action_size >= 1 && task.action_size % 2 == 0
    ensures ActionCost(task, a) > 0.0
  {
  }

  /** With an odd number of actions the middle rung is free. */
  lemma OddActionSizeMiddleIsFree(task: AcrobotBalanceTask, a: AcrobotAction)
    requires task.action_size % 2 == 1 && a.digitization_index == (task.action_size - 1) / 2
    ensures ActionCost(task, a) == 0.0
  {
    assert (2 * a.digitization_index) as real == (task.action_size - 1) as real;
  }

  /**
   * `get_reward`: -2000 for a finished episode; 500 when every bucket is
   * within one of its centre; otherwise the position reward less the
   * velocity penalty and the action cost, which then stays strictly below
   * the 10 the position reward can reach.
   */
  function GetReward(task: AcrobotBalanceTask, state: AcrobotState, action: AcrobotAction): (r: real)
    requires task.action_size >= 1
    ensures ShouldFinish(task, state) ==> r == -2000.0
    ensures !ShouldFinish(task, state) && NearCentre(task, state) ==> r == 500.0
    ensures !ShouldFinish(task, state) && !NearCentre(task, state) ==>
      && r == PositionReward(task, state) - VelocityPenalty(task, state) - ActionCost(task, action)
      && r < 10.0
  {
    if ShouldFinish(task, state) then -2000.0
    else if NearCentre(task, state) then 500.0
    else PositionReward(task, state) - VelocityPenalty(task, state) - ActionCost(task, action)
  }

  /** Outside the two fixed cases, the reward of one state prefers the rung nearer the middle. */
  lemma GetRewardPrefersMiddleAction(task: AcrobotBalanceTask, state: AcrobotState, a: AcrobotAction, b: AcrobotAction)
    requires task.action_size >= 1
    requires !ShouldFinish(task, state) && !NearCentre(task, state)
    requires var c := (task.action_size - 1) as real / 2.0;
      Abs(a.digitization_index as real - c) < Abs(b.digitization_index as real - c)
    ensures GetReward(task, state, a) > GetReward(task, state, b)
  {
    ActionCostMonotone(task, a, b);
  }

  /**
   * The library's `Task::get_reward` with this reward plugged in: a
   * finished episode gets -2000, any other observation either the bonus 500
   * or less than 10.
   */
  function ObservationReward(task: AcrobotBalanceTask, obs: Observation, action: AcrobotAction): (r: real)
    requires Digitizable(task) && task.action_size >= 1
    ensures TaskShouldFinish(task, obs) ==> r == -2000.0
    ensures !TaskShouldFinish(task, obs) ==> r == 500.0 || r < 10.0
  {
    GetReward(task, State(task, obs), action)
  }

  /** The Q-table state size the binary configures: `n_arm^2 * n_pendulum^2`. */
  function StateSize(n_arm_digitization: nat, n_pendulum_digitization: nat): (n: nat)
    ensures n_arm_digitization >= 1 && n_pendulum_digitization >= 1 ==> n >= 1
  {
    n_arm_digitization * n_arm_digitization * (n_pendulum_digitization * n_pendulum_digitization)
  }

  /** The configured state size is exactly the number of indices the library's encoding can produce. */
  lemma StateSizeIsStateCount(task: AcrobotBalanceTask)
    ensures StateSize(task.n_arm_digitization, task.n_pendulum_digitization) == StateCount(task)
  {
    var (da, dp) := (task.n_arm_digitization, task.n_pendulum_digitization);
    assert da * da * (dp * dp) == dp * (dp * (da * da));
  }

  /** The agent configuration `main` builds. */
  function TrainingConfig(task: AcrobotBalanceTask): (c: QTableAgentConfig)
    ensures c.action_size == task.action_size
    ensures c.state_size == StateCount(task)
    ensures c.initial_alpha == 0.1 && c.initial_epsilon == 0.5
  {
    StateSizeIsStateCount(task);
    QTableAgentConfig(task.action_size, StateSize(task.n_arm_digitization, task.n_pendulum_digitization), 0.1, 0.5)
  }

  /**
   * With that configuration no `unwrap` in `get_action` or `learn` can fail:
   * every digitized observation fits the Q-table, every Q-table action has a
   * rung, and the update is recorded against the chosen rung.
   */
  lemma TrainingIndicesFit(task: AcrobotBalanceTask, m: Model, actuator_id: ActuatorId,
                           o1: Observation, o2: Observation, choice: nat, reward: real)
    requires Digitizable(task) && task.action_size >= 2
    requires actuator_id.index < |m.actuator_ctrlrange|
    requires choice < task.action_size
    ensures var agent := NewAgent(TrainingConfig(task), m, actuator_id, task);
      var (s1, s2) := (State(task, o1), State(task, o2));
      && s1.digitized_state < agent.qtable.state_size
      && s2.digitized_state < agent.qtable.state_size
      && choice < |agent.digitized_actions|
      && var a := GetAction(agent, s1, choice);
         Learn(agent, s1, a, reward, s2) == QUpdate(s1.digitized_state, choice, reward, s2.digitized_state)
  {
    StateSizeIsStateCount(task);
  }
}
