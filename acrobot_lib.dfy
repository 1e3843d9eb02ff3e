/**
 * The balance task, the action and the Q-table agent of the acrobot
 * example's library (`examples/acrobot-qtable/src/lib.rs`).
 *
 * The balance task digitizes an observation into four buckets and one flat state
 * index; the agent turns a Q-table action index back into one of a ladder of
 * evenly spaced torques for the shoulder actuator.
 */
module AcrobotLib {
  import opened Wrappers
  import opened ObjectIds
  import opened Joint
  import opened Model
  import opened Physics
  import opened Np
  import opened AcrobotCommon

  /** `AcrobotBalanceTask` without its reward function field, which the training binary supplies. */
  datatype AcrobotBalanceTask = AcrobotBalanceTask(
    n_arm_digitization: nat, n_pendulum_digitization: nat, action_size: nat)

  /** `AcrobotState`: four buckets and the flat Q-table state index. */
  datatype AcrobotState = AcrobotState(
    n_arm_rad: nat, n_pendulum_rad: nat, n_arm_vel: nat, n_pendulum_vel: nat, digitized_state: nat)

  /** Both digitizations are at least 1, as slicing `linspace(.., d + 1)[1..d]` needs. */
  predicate Digitizable(task: AcrobotBalanceTask) {
    task.n_arm_digitization >= 1 && task.n_pendulum_digitization >= 1
  }

  /** The largest bucket `digitize` can return over the `d - 1` interior edges of `d` bins. */
  function TopBucket(d: nat): nat {
    if d >= 2 then d - 2 else 0
  }

  /** The number of distinct states the encoding can address. */
  function StateCount(task: AcrobotBalanceTask): nat {
    var da := task.n_arm_digitization;
    var dp := task.n_pendulum_digitization;
    dp * (dp * (da * da))
  }

  /**
   * `AcrobotBalanceTask::state`. The arm is the shoulder joint: its angle is
   * bucketed over [-0.9 pi, 0.9 pi] and its velocity, clamped to [-8, 8],
   * over [-8, 8], each into `n_arm_digitization` bins; the pendulum is the
   * elbow joint, its angle over [-0.2 pi, 0.2 pi] and its velocity over
   * [-8, 8], into `n_pendulum_digitization` bins. The flat index has the
   * pendulum angle as its fastest digit, then the pendulum velocity, then the
   * arm angle, then the arm velocity.
   */
  function State(task: AcrobotBalanceTask, obs: Observation): (s: AcrobotState)
    requires Digitizable(task)
    ensures s.n_arm_rad == BinIndex(obs.shoulder_rad, Edges(-0.9 * PI, 0.9 * PI, task.n_arm_digitization))
    ensures s.n_arm_vel == BinIndex(Clamp(obs.shoulder_velocity, -8.0, 8.0), Edges(-8.0, 8.0, task.n_arm_digitization))
    ensures s.n_pendulum_rad == BinIndex(obs.elbow_rad, Edges(-0.2 * PI, 0.2 * PI, task.n_pendulum_digitization))
    ensures s.n_pendulum_vel == BinIndex(Clamp(obs.elbow_velocity, -8.0, 8.0), Edges(-8.0, 8.0, task.n_pendulum_digitization))
    ensures s.n_arm_rad <= TopBucket(task.n_arm_digitization) && s.n_arm_vel <= TopBucket(task.n_arm_digitization)
    ensures s.n_pendulum_rad <= TopBucket(task.n_pendulum_digitization) && s.n_pendulum_vel <= TopBucket(task.n_pendulum_digitization)
    ensures var (da, dp) := (task.n_arm_digitization, task.n_pendulum_digitization);
      s.digitized_state == s.n_pendulum_rad + s.n_pendulum_vel * dp + s.n_arm_rad * dp * dp + s.n_arm_vel * dp * dp * da
    ensures s.digitized_state < StateCount(task)
  {
    var da := task.n_arm_digitization;
    var dp := task.n_pendulum_digitization;
    var n_arm_rad := Bucket(obs.shoulder_rad, -0.9 * PI, 0.9 * PI, da);
    var n_arm_vel := Bucket(Clamp(obs.shoulder_velocity, -8.0, 8.0), -8.0, 8.0, da);
    var n_pendulum_rad := Bucket(obs.elbow_rad, -0.2 * PI, 0.2 * PI, dp);
    var n_pendulum_vel := Bucket(Clamp(obs.elbow_velocity, -8.0, 8.0), -8.0, 8.0, dp);
    Encode4Bound(n_pendulum_rad, n_pendulum_vel, n_arm_rad, n_arm_vel, dp, dp, da, da);
    Encode4Expanded(n_pendulum_rad, n_pendulum_vel, n_arm_rad, n_arm_vel, dp, dp, da);
    AcrobotState(n_arm_rad, n_pendulum_rad, n_arm_vel, n_pendulum_vel,
                 Encode4(n_pendulum_rad, n_pendulum_vel, n_arm_rad, n_arm_vel, dp, dp, da))
  }

  /** Two observations share a state index exactly when they share all four buckets. */
  lemma StateIndexInjective(task: AcrobotBalanceTask, o1: Observation, o2: Observation)
    requires Digitizable(task)
    ensures var (s1, s2) := (State(task, o1), State(task, o2));
      s1.digitized_state == s2.digitized_state <==>
        (s1.n_arm_rad == s2.n_arm_rad && s1.n_arm_vel == s2.n_arm_vel &&
         s1.n_pendulum_rad == s2.n_pendulum_rad && s1.n_pendulum_vel == s2.n_pendulum_vel)
  {
    var (s1, s2) := (State(task, o1), State(task, o2));
    var da := task.n_arm_digitization;
    var dp := task.n_pendulum_digitization;
    if s1.digitized_state == s2.digitized_state {
      Encode4Injective(s1.n_pendulum_rad, s1.n_pendulum_vel, s1.n_arm_rad, s1.n_arm_vel,
                       s2.n_pendulum_rad, s2.n_pendulum_vel, s2.n_arm_rad, s2.n_arm_vel, dp, dp, da);
    }
  }

  /** `AcrobotBalanceTask::should_finish_episode`: the arm or the pendulum bucket is outside `1..d`. */
  function ShouldFinish(task: AcrobotBalanceTask, s: AcrobotState): (r: bool)
    ensures r <==> s.n_arm_rad == 0 || task.n_arm_digitization <= s.n_arm_rad ||
                   s.n_pendulum_rad == 0 || task.n_pendulum_digitization <= s.n_pendulum_rad
  {
    if s.n_arm_rad <= 0 || task.n_arm_digitization <= s.n_arm_rad then true
    else if s.n_pendulum_rad <= 0 || task.n_pendulum_digitization <= s.n_pendulum_rad then true
    else false
  }

  /**
   * The `Task` impl's `should_finish_episode`. On a digitized observation
   * the upper bound can never trip, so an episode ends exactly when the arm
   * angle is below the first arm edge or the pendulum angle below the first
   * pendulum edge.
   */
  function TaskShouldFinish(task: AcrobotBalanceTask, obs: Observation): (r: bool)
    requires Digitizable(task)
    ensures r <==> State(task, obs).n_arm_rad == 0 || State(task, obs).n_pendulum_rad == 0
  {
    ShouldFinish(task, State(task, obs))
  }

  /** A bucket is 0 exactly when the value lies below the first interior edge, when there is more than one edge. */
  lemma BucketZero(x: real, lo: real, hi: real, d: nat)
    requires d >= 3 && lo <= hi
    ensures Bucket(x, lo, hi, d) == 0 <==> x < Edges(lo, hi, d)[0]
  {
  }

  /**
   * With two or fewer bins on either axis there is at most one interior edge,
   * every bucket on that axis is 0, and so every episode ends at once.
   */
  lemma CoarseDigitizationAlwaysFinishes(task: AcrobotBalanceTask, obs: Observation)
    requires Digitizable(task)
    requires task.n_arm_digitization <= 2 || task.n_pendulum_digitization <= 2
    ensures TaskShouldFinish(task, obs)
  {
  }

  /** `discount`: the constant 0.99, a proper discount factor. */
  function Discount(task: AcrobotBalanceTask): (r: real)
    ensures r == 0.99
    ensures 0.0 < r < 1.0
  {
    0.99
  }

  /** `np::random(-0.1, 0.1)`: a value of the half-open range [-0.1, 0.1). */
  predicate SmallPerturbation(x: real) {
    -0.1 <= x < 0.1
  }

  /**
   * `init_episode`: sets the elbow angle, the elbow velocity, the shoulder
   * angle and the shoulder velocity, in that order, to the given
   * perturbations (the random draws are parameters). Every `unwrap` succeeds
   * because both joints are hinges.
   */
  method InitEpisode(acrobot: Acrobot, elbow_qpos: real, elbow_qvel: real, shoulder_qpos: real, shoulder_qvel: real)
    requires acrobot.Valid()
    requires SmallPerturbation(elbow_qpos) && SmallPerturbation(elbow_qvel)
    requires SmallPerturbation(shoulder_qpos) && SmallPerturbation(shoulder_qvel)
    modifies acrobot.physics.qpos, acrobot.physics.qvel
    ensures acrobot.physics.Qpos(Hinge, acrobot.elbow_id) == Ok([elbow_qpos])
    ensures acrobot.physics.Qvel(Hinge, acrobot.elbow_id) == Ok([elbow_qvel])
    ensures acrobot.physics.Qpos(Hinge, acrobot.shoulder_id) == Ok([shoulder_qpos])
    ensures acrobot.physics.Qvel(Hinge, acrobot.shoulder_id) == Ok([shoulder_qvel])
    ensures var m := acrobot.physics.model;
      acrobot.physics.State() == old(acrobot.physics.State()).(
        qpos := Splice(Splice(old(acrobot.physics.qpos[..]), m.jnt_qposadr[acrobot.elbow_id.index], [elbow_qpos]),
                       m.jnt_qposadr[acrobot.shoulder_id.index], [shoulder_qpos]),
        qvel := Splice(Splice(old(acrobot.physics.qvel[..]), m.jnt_dofadr[acrobot.elbow_id.index].value, [elbow_qvel]),
                       m.jnt_dofadr[acrobot.shoulder_id.index].value, [shoulder_qvel]))
  {
    var physics := acrobot.physics;
    var elbow_id, shoulder_id := acrobot.elbow_id, acrobot.shoulder_id;
    var r := physics.SetQpos(Hinge, elbow_id, [elbow_qpos]);
    assert r.Ok?;
    r := physics.SetQvel(Hinge, elbow_id, [elbow_qvel]);
    assert r.Ok?;
    r := physics.SetQpos(Hinge, shoulder_id, [shoulder_qpos]);
    assert r.Ok?;
    r := physics.SetQvel(Hinge, shoulder_id, [shoulder_qvel]);
    assert r.Ok?;
  }

  /** `AcrobotAction`: a torque for one actuator and its rung on the agent's ladder. */
  datatype AcrobotAction = AcrobotAction(actuator_id: ActuatorId, torque: real, digitization_index: nat)

  /** `apply`: the torque must lie in [-1, 1] (the source asserts it) and becomes the actuator's control. */
  method Apply(action: AcrobotAction, actuators: Actuators)
    requires actuators.physics.Valid() && action.actuator_id.index < actuators.physics.model.nu()
    requires -1.0 <= action.torque <= 1.0
    modifies actuators.physics.ctrl
    ensures actuators.physics.State() ==
      old(actuators.physics.State()).(ctrl := old(actuators.physics.ctrl[..])[action.actuator_id.index := action.torque])
    ensures actuators.physics.Ctrl(action.actuator_id) == action.torque
  {
    actuators.Set(action.actuator_id, action.torque);
  }

  /** One more than the largest `u64`. */
  const U64_LIMIT: nat := 0x1_0000_0000_0000_0000

  /** `serde_actuator_id::serialize`: the index as a `u64`. */
  function SerializeActuatorId(id: ActuatorId): (n: nat)
    requires id.index < U64_LIMIT
    ensures n < U64_LIMIT && n == id.index
  {
    id.index
  }

  /** `serde_actuator_id::deserialize`: any `u64` becomes a handle, unchecked. */
  function DeserializeActuatorId(n: nat): (id: ActuatorId)
    requires n < U64_LIMIT
    ensures id.index == n
  {
    ObjectId(n)
  }

  /** Serializing and deserializing an actuator handle gives it back, and the other way round. */
  lemma ActuatorIdRoundTrip(id: ActuatorId, n: nat)
    requires id.index < U64_LIMIT && n < U64_LIMIT
    ensures DeserializeActuatorId(SerializeActuatorId(id)) == id
    ensures SerializeActuatorId(DeserializeActuatorId(n)) == n
  {
  }

  /** `mjMINVAL` and `mjMAXVAL` of the engine's headers. */
  const MJ_MINVAL: real := 0.000000000000001
  const MJ_MAXVAL: real := 10000000000.0

  /** The control range to spread actions over: the declared one, or `mjMINVAL..mjMAXVAL` when it is `0..0`. */
  function LadderRange(ctrlrange: (real, real)): (r: (real, real))
    ensures ctrlrange == (0.0, 0.0) ==> r == (MJ_MINVAL, MJ_MAXVAL)
    ensures ctrlrange != (0.0, 0.0) ==> r == ctrlrange
    ensures r.0 <= r.1 <==> ctrlrange.0 <= ctrlrange.1
  {
    if ctrlrange == (0.0, 0.0) then (MJ_MINVAL, MJ_MAXVAL) else ctrlrange
  }

  /** `QTableAgentConfig`. */
  datatype QTableAgentConfig = QTableAgentConfig(
    action_size: nat, state_size: nat, initial_alpha: real, initial_epsilon: real)

  /**
   * `make_digitized_actions`: `action_size` actions for the actuator, rung
   * `i` carrying index `i` and the `i`-th of `action_size` evenly spaced
   * torques over the ladder range.
   */
  function MakeDigitizedActions(m: Model, actuator_id: ActuatorId, config: QTableAgentConfig): (r: seq<AcrobotAction>)
    requires actuator_id.index < |m.actuator_ctrlrange| && config.action_size != 1
    ensures |r| == config.action_size
    ensures forall i :: 0 <= i < |r| ==> r[i].actuator_id == actuator_id && r[i].digitization_index == i
    ensures var range := LadderRange(m.actuator_ctrlrange[actuator_id.index]);
      forall i :: 0 <= i < |r| ==> r[i].torque == Linspace(range.0, range.1, config.action_size)[i]
  {
    var range := LadderRange(m.actuator_ctrlrange[actuator_id.index]);
    var torques := Linspace(range.0, range.1, config.action_size);
    seq(|torques|, i requires 0 <= i < |torques| => AcrobotAction(actuator_id, torques[i], i))
  }

  /** The first rung is the low end of the range and the last the high end. */
  lemma LadderEnds(m: Model, actuator_id: ActuatorId, config: QTableAgentConfig)
    requires actuator_id.index < |m.actuator_ctrlrange| && config.action_size >= 2
    ensures var (r, range) := (MakeDigitizedActions(m, actuator_id, config), LadderRange(m.actuator_ctrlrange[actuator_id.index]));
      r[0].torque == range.0 && r[|r| - 1].torque == range.1
  {
    var range := LadderRange(m.actuator_ctrlrange[actuator_id.index]);
    LinspaceEnds(range.0, range.1, config.action_size);
  }

  /** Over an ordered declared range every rung stays in the range, and the rungs strictly increase when the range is not a point. */
  lemma LadderWithinRange(m: Model, actuator_id: ActuatorId, config: QTableAgentConfig, i: nat, j: nat)
    requires actuator_id.index < |m.actuator_ctrlrange| && config.action_size != 1
    requires m.actuator_ctrlrange[actuator_id.index].0 <= m.actuator_ctrlrange[actuator_id.index].1
    requires i < j < config.action_size
    ensures var (r, range) := (MakeDigitizedActions(m, actuator_id, config), LadderRange(m.actuator_ctrlrange[actuator_id.index]));
      && range.0 <= r[i].torque <= range.1
      && (range.0 < range.1 ==> r[i].torque < r[j].torque)
  {
    var range := LadderRange(m.actuator_ctrlrange[actuator_id.index]);
    LinspaceWithin(range.0, range.1, config.action_size, i);
    LinspaceMonotone(range.0, range.1, config.action_size, i, j);
  }

  /** When the declared range lies in [-1, 1], every rung satisfies `apply`'s assertion. */
  lemma DeclaredUnitRangeLadderApplies(m: Model, actuator_id: ActuatorId, config: QTableAgentConfig, i: nat)
    requires actuator_id.index < |m.actuator_ctrlrange| && config.action_size != 1
    requires var c := m.actuator_ctrlrange[actuator_id.index]; -1.0 <= c.0 <= c.1 <= 1.0 && c != (0.0, 0.0)
    requires i < config.action_size
    ensures -1.0 <= MakeDigitizedActions(m, actuator_id, config)[i].torque <= 1.0
  {
    var range := LadderRange(m.actuator_ctrlrange[actuator_id.index]);
    LinspaceWithin(range.0, range.1, config.action_size, i);
  }

  /**
   * An actuator declared with range `0..0` gets the fallback ladder, whose
   * top rung `mjMAXVAL` violates `apply`'s assertion: choosing it panics.
   */
  lemma FallbackLadderTopRungPanics(m: Model, actuator_id: ActuatorId, config: QTableAgentConfig)
    requires actuator_id.index < |m.actuator_ctrlrange| && config.action_size >= 2
    requires m.actuator_ctrlrange[actuator_id.index] == (0.0, 0.0)
    ensures MakeDigitizedActions(m, actuator_id, config)[config.action_size - 1].torque > 1.0
  {
    LadderEnds(m, actuator_id, config);
  }

  /** The shape and hyper-parameters a `QTable` is created with; its values live in the `qtable` crate. */
  datatype QTable = QTable(state_size: nat, action_size: nat, alpha: real, epsilon: real)

  /** `QTableAgent`. */
  datatype QTableAgent = QTableAgent(
    digitized_actions: seq<AcrobotAction>, qtable: QTable,
    n_arm_digitization: nat, n_pendulum_digitization: nat)

  /** The ladder's rung `i` carries Q-table action index `i`, and there is one rung per Q-table action. */
  predicate Consistent(agent: QTableAgent) {
    && |agent.digitized_actions| == agent.qtable.action_size
    && forall i :: 0 <= i < |agent.digitized_actions| ==> agent.digitized_actions[i].digitization_index == i
  }

  /**
   * `QTableAgent::new` for the acrobot's model and actuator and the given
   * task: a Q-table of the configured shape and the ladder of actions.
   */
  function NewAgent(config: QTableAgentConfig, m: Model, actuator_id: ActuatorId, task: AcrobotBalanceTask): (a: QTableAgent)
    requires actuator_id.index < |m.actuator_ctrlrange| && config.action_size != 1
    ensures a.qtable == QTable(config.state_size, config.action_size, config.initial_alpha, config.initial_epsilon)
    ensures a.digitized_actions == MakeDigitizedActions(m, actuator_id, config)
    ensures a.n_arm_digitization == task.n_arm_digitization && a.n_pendulum_digitization == task.n_pendulum_digitization
    ensures Consistent(a)
  {
    QTableAgent(
      MakeDigitizedActions(m, actuator_id, config),
      QTable(config.state_size, config.action_size, config.initial_alpha, config.initial_epsilon),
      task.n_arm_digitization, task.n_pendulum_digitization)
  }

  /**
   * `get_action`: `choice` is the Q-table action the strategy picks for the
   * state; the `unwrap` demands the state index fit the table, and indexing
   * demands the choice have a rung.
   */
  function GetAction(agent: QTableAgent, state: AcrobotState, choice: nat): (a: AcrobotAction)
    requires state.digitized_state < agent.qtable.state_size
    requires choice < agent.qtable.action_size && choice < |agent.digitized_actions|
    ensures a in agent.digitized_actions
    ensures Consistent(agent) ==> a.digitization_index == choice
  {
    agent.digitized_actions[choice]
  }

  /** The index-level content of a `QUpdate`: which cell is updated with which reward towards which state. */
  datatype QUpdate = QUpdate(state: nat, action: nat, reward: real, next_state: nat)

  /** `learn`: the update the Q-table receives; each `unwrap` demands its index fit the table. */
  function Learn(agent: QTableAgent, state: AcrobotState, action: AcrobotAction, reward: real, next_state: AcrobotState): (u: QUpdate)
    requires state.digitized_state < agent.qtable.state_size && next_state.digitized_state < agent.qtable.state_size
    requires action.digitization_index < agent.qtable.action_size
    ensures u.state < agent.qtable.state_size && u.next_state < agent.qtable.state_size && u.action < agent.qtable.action_size
    ensures u == QUpdate(state.digitized_state, action.digitization_index, reward, next_state.digitized_state)
  {
    QUpdate(state.digitized_state, action.digitization_index, reward, next_state.digitized_state)
  }

  /** An action the agent chose can always be learnt from, and the update lands in the cell that was chosen. */
  lemma LearnChosenAction(agent: QTableAgent, state: AcrobotState, choice: nat, reward: real, next_state: AcrobotState)
    requires Consistent(agent)
    requires state.digitized_state < agent.qtable.state_size && next_state.digitized_state < agent.qtable.state_size
    requires choice < agent.qtable.action_size
    ensures var a := GetAction(agent, state, choice);
      a.digitization_index < agent.qtable.action_size &&
      Learn(agent, state, a, reward, next_state).action == choice &&
      Learn(agent, state, a, reward, next_state).state == state.digitized_state
  {
  }

  /** `TrainedAgent`. */
  datatype TrainedAgent = TrainedAgent(agent: QTableAgent)

  /** `TrainedAgent::action_size`: the number of rungs, which for a consistent agent is the Q-table's action count. */
  function ActionSize(t: TrainedAgent): (n: nat)
    ensures n == |t.agent.digitized_actions|
    ensures Consistent(t.agent) ==> n == t.agent.qtable.action_size
  {
    |t.agent.digitized_actions|
  }

  /** A freshly built agent, once trained, reports the configured action size. */
  lemma NewAgentActionSize(config: QTableAgentConfig, m: Model, actuator_id: ActuatorId, task: AcrobotBalanceTask)
    requires actuator_id.index < |m.actuator_ctrlrange| && config.action_size != 1
    ensures ActionSize(TrainedAgent(NewAgent(config, m, actuator_id, task))) == config.action_size
  {
  }
}
