/**
 * The stand-alone acrobot swing/balance program
 * (`examples/acrobot-qtable/src/main.rs`): its own task with configurable
 * angle limits, a quadratic reward on the pendulum bucket, and an action
 * that writes the shoulder torque unchecked.
 */
module AcrobotMain {
  import opened Wrappers
  import opened ObjectIds
  import opened Joint
  import opened Model
  import opened Physics
  import opened Np
  import AcrobotCommon

  /** This program's `Acrobot`: the physics with the two joint handles, and no actuator handle. */
  class Acrobot {
    const physics: Physics
    const elbow_id: JointId
    const shoulder_id: JointId

    /** The loaded model has two distinct hinge joints. */
    ghost predicate Valid() {
      && physics.Valid()
      && elbow_id.index < physics.model.njnt() && shoulder_id.index < physics.model.njnt()
      && elbow_id != shoulder_id
      && physics.model.jnt_type[elbow_id.index] == Hinge && physics.model.jnt_type[shoulder_id.index] == Hinge
    }

    constructor (physics: Physics, elbow_id: JointId, shoulder_id: JointId)
      ensures this.physics == physics && this.elbow_id == elbow_id && this.shoulder_id == shoulder_id
    {
      this.physics := physics;
      this.elbow_id := elbow_id;
      this.shoulder_id := shoulder_id;
    }
  }

  /** `BalanceTask`; each limit is a `start..end` range of angles. */
  datatype BalanceTask = BalanceTask(
    do_swing: bool, discount: real,
    n_arm_digitization: nat, n_pendulum_digitization: nat,
    arm_limit: (real, real), pendulum_limit: (real, real))

  /**
   * What `state` demands so that it does not panic: at least one bin per
   * axis for the slice, and limits in order once an axis has two edges.
   */
  predicate Configured(task: BalanceTask) {
    && task.n_arm_digitization >= 1 && task.n_pendulum_digitization >= 1
    && (task.arm_limit.0 <= task.arm_limit.1 || task.n_arm_digitization <= 2)
    && (task.pendulum_limit.0 <= task.pendulum_limit.1 || task.n_pendulum_digitization <= 2)
  }

  /** The number of distinct states the encoding can address. */
  function StateCount(task: BalanceTask): nat {
    var da := task.n_arm_digitization;
    var dp := task.n_pendulum_digitization;
    dp * (dp * (da * da))
  }

  /** `AcrobotState` of this program: the raw angles and velocities, their buckets and the flat index. */
  datatype AcrobotState = AcrobotState(
    arm_rad: real, pendulum_rad: real, arm_vel: real, pendulum_vel: real,
    n_arm_rad: nat, n_pendulum_rad: nat, n_arm_vel: nat, n_pendulum_vel: nat,
    digitized_state: nat)

  /**
   * `BalanceTask::state`: the angles are bucketed over the configured limits and
   * the clamped velocities over [-8, 8]. Unlike the library's task, the flat
   * index puts the arm velocity before the arm angle.
   */
  function State(task: BalanceTask, obs: AcrobotCommon.Observation): (s: AcrobotState)
    requires Configured(task)
    ensures s.arm_rad == obs.shoulder_rad && s.arm_vel == obs.shoulder_velocity
    ensures s.pendulum_rad == obs.elbow_rad && s.pendulum_vel == obs.elbow_velocity
    ensures s.n_arm_rad == BinIndex(obs.shoulder_rad, Edges(task.arm_limit.0, task.arm_limit.1, task.n_arm_digitization))
    ensures s.n_arm_vel == BinIndex(Clamp(obs.shoulder_velocity, -8.0, 8.0), Edges(-8.0, 8.0, task.n_arm_digitization))
    ensures s.n_pendulum_rad == BinIndex(obs.elbow_rad, Edges(task.pendulum_limit.0, task.pendulum_limit.1, task.n_pendulum_digitization))
    ensures s.n_pendulum_vel == BinIndex(Clamp(obs.elbow_velocity, -8.0, 8.0), Edges(-8.0, 8.0, task.n_pendulum_digitization))
    ensures s.n_arm_rad < task.n_arm_digitization && s.n_arm_vel < task.n_arm_digitization
    ensures s.n_pendulum_rad < task.n_pendulum_digitization && s.n_pendulum_vel < task.n_pendulum_digitization
    ensures var (da, dp) := (task.n_arm_digitization, task.n_pendulum_digitization);
      s.digitized_state == s.n_pendulum_rad + s.n_pendulum_vel * dp + s.n_arm_vel * dp * dp + s.n_arm_rad * dp * dp * da
    ensures s.digitized_state < StateCount(task)
  {
    var da := task.n_arm_digitization;
    var dp := task.n_pendulum_digitization;
    var n_arm_rad := Bucket(obs.shoulder_rad, task.arm_limit.0, task.arm_limit.1, da);
    var n_arm_vel := Bucket(Clamp(obs.shoulder_velocity, -8.0, 8.0), -8.0, 8.0, da);
    var n_pendulum_rad := Bucket(obs.elbow_rad, task.pendulum_limit.0, task.pendulum_limit.1, dp);
    var n_pendulum_vel := Bucket(Clamp(obs.elbow_velocity, -8.0, 8.0), -8.0, 8.0, dp);
    AcrobotCommon.Encode4Bound(n_pendulum_rad, n_pendulum_vel, n_arm_vel, n_arm_rad, dp, dp, da, da);
    AcrobotCommon.Encode4Expanded(n_pendulum_rad, n_pendulum_vel, n_arm_vel, n_arm_rad, dp, dp, da);
    AcrobotState(obs.shoulder_rad, obs.elbow_rad, obs.shoulder_velocity, obs.elbow_velocity,
                 n_arm_rad, n_pendulum_rad, n_arm_vel, n_pendulum_vel,
                 AcrobotCommon.Encode4(n_pendulum_rad, n_pendulum_vel, n_arm_vel, n_arm_rad, dp, dp, da))
  }

  /** Two observations share a state index exactly when they share all four buckets. */
  lemma StateIndexInjective(task: BalanceTask, o1: AcrobotCommon.Observation, o2: AcrobotCommon.Observation)
    requires Configured(task)
    ensures var (s1, s2) := (State(task, o1), State(task, o2));
      s1.digitized_state == s2.digitized_state <==>
        (s1.n_arm_rad == s2.n_arm_rad && s1.n_arm_vel == s2.n_arm_vel &&
         s1.n_pendulum_rad == s2.n_pendulum_rad && s1.n_pendulum_vel == s2.n_pendulum_vel)
  {
    var (s1, s2) := (State(task, o1), State(task, o2));
    var da := task.n_arm_digitization;
    var dp := task.n_pendulum_digitization;
    if s1.digitized_state == s2.digitized_state {
      AcrobotCommon.Encode4Injective(s1.n_pendulum_rad, s1.n_pendulum_vel, s1.n_arm_vel, s1.n_arm_rad,
                               s2.n_pendulum_rad, s2.n_pendulum_vel, s2.n_arm_vel, s2.n_arm_rad, dp, dp, da);
    }
  }

  /**
   * `should_finish_episode`: true when the arm or pendulum bucket lies
   * outside `0..=d`. A bucket is always below `d`, so no episode of this
   * task ever finishes on its own.
   */
  function ShouldFinishEpisode(task: BalanceTask, obs: AcrobotCommon.Observation): (r: bool)
    requires Configured(task)
    ensures !r
  {
    var s := State(task, obs);
    if !(0 <= s.n_arm_rad <= task.n_arm_digitization) then true
    else if !(0 <= s.n_pendulum_rad <= task.n_pendulum_digitization) then true
    else false
  }

  /** How a natural number converts to a real commutes with products. */
  lemma CastProduct(i: int, j: int)
    ensures (i as real) * (j as real) == (i * j) as real
  {
  }

  /** A positive times a negative integer is negative. */
  lemma MixedSignProduct(a: int, b: int)
    requires a > 0 && b < 0
    ensures a * b < 0
  {
  }

  /** Two integers of the same strict sign have a positive product. */
  lemma SameSignProduct(a: int, b: int)
    requires (a > 0 && b > 0) || (a < 0 && b < 0)
    ensures a * b > 0
  {
    if a < 0 { assert a * b == (-a) * (-b); }
  }

  /**
   * The good band around the best bucket `(n - 1) / 2` has half-width
   * `n / 4`. For any `n >= 1` its lower end does not underflow and its upper
   * end is still a bucket.
   */
  lemma GoodBandInRange(n: nat)
    requires n >= 1
    ensures (n - 1) / 2 >= n / 4 && (n - 1) / 2 + n / 4 <= n - 1
  {
  }

  /**
   * With four or more buckets the denominator `best^2 - gn * gx` of the
   * reward's coefficient is the squared half-width, which is positive.
   */
  lemma GoodBand(n: nat)
    requires n >= 4
    ensures var (best, q) := ((n - 1) / 2, n / 4);
      && best >= q && best + q < n
      && (best as real) * (best as real) - ((best - q) as real) * ((best + q) as real) == (q * q) as real
      && q * q >= 1
  {
    var (best, q) := ((n - 1) / 2, n / 4);
    GoodBandInRange(n);
    assert best * best - (best - q) * (best + q) == q * q;
    CastProduct(best, best);
    CastProduct(best - q, best + q);
  }

  /**
   * The quadratic reward on the pendulum bucket `x` among `n` buckets:
   * `-a x^2 + b x + c` with the coefficients solved from the three
   * conditions of the source's design comment.
   */
  function PendulumReward(n: nat, x: nat): real
    requires n >= 4
  {
    var best: nat := (n - 1) / 2;
    GoodBand(n);
    var good_min: nat := best - n / 4;
    var good_max: nat := best + n / 4;
    var (gn, gx, b0) := (good_min as real, good_max as real, best as real);
    var a := 1.0 / (b0 * b0 - gn * gx);
    var b := a * (gn + gx);
    var c := -a * gn * gx;
    var xr := x as real;
    -a * (xr * xr) + b * xr + c
  }

  /** The best bucket `(n - 1) / 2`. */
  function Best(n: nat): nat
    requires n >= 1
  {
    (n - 1) / 2
  }

  /** The half-width `n / 4` of the good band around the best bucket. */
  function HalfWidth(n: nat): nat {
    n / 4
  }

  /** `-(x - gn)(x - gx)`, the reward's numerator over the integers. */
  function Numerator(n: nat, x: nat): int
    requires n >= 1
  {
    -(x - (Best(n) - HalfWidth(n))) * (x - (Best(n) + HalfWidth(n)))
  }

  /** `-a x^2 + a (g0 + g1) x - a g0 g1` is `a` times `p` when `p` is the monic product form. */
  lemma QuadraticFactor(a: real, g0: real, g1: real, xr: real, p: real)
    requires p == -(xr * xr) + (g0 + g1) * xr - g0 * g1
    ensures -a * (xr * xr) + a * (g0 + g1) * xr + -a * g0 * g1 == a * p
  {
  }

  /** The integer numerator, cast to a real, is the same polynomial over the reals. */
  lemma NumeratorCast(x: int, gn: int, gx: int)
    ensures (-(x * x) + (gn + gx) * x - gn * gx) as real ==
      -((x as real) * (x as real)) + ((gn as real) + (gx as real)) * (x as real) - (gn as real) * (gx as real)
  {
    CastProduct(x, x);
    CastProduct(gn + gx, x);
    CastProduct(gn, gx);
  }

  /** Multiplying by the reciprocal is dividing. */
  lemma MulReciprocal(p: real, d: real)
    requires d != 0.0
    ensures (1.0 / d) * p == p / d
  {
  }

  /** The reward in factored form: `Numerator(n, x) / q^2` with `q = n / 4`. */
  lemma PendulumRewardFactored(n: nat, x: nat)
    requires n >= 4
    ensures PendulumReward(n, x) == Numerator(n, x) as real / (HalfWidth(n) * HalfWidth(n)) as real
  {
    var (best, q) := (Best(n), HalfWidth(n));
    var (gn, gx) := (best - q, best + q);
    GoodBand(n);
    var (g0, g1, xr) := (gn as real, gx as real, x as real);
    var qq := (q * q) as real;
    var p := -(x * x) + (gn + gx) * x - gn * gx;
    NumeratorCast(x, gn, gx);
    QuadraticFactor(1.0 / qq, g0, g1, xr, p as real);
    MulReciprocal(p as real, qq);
  }

  /** `-(x - (c - q))(x - (c + q))` is `q^2` at `c`, 0 at `c - q` and `c + q`, positive between, negative outside, and never above `q^2`. */
  lemma BandProduct(x: int, c: int, q: int)
    requires q >= 0
    ensures var p := -(x - (c - q)) * (x - (c + q));
      && (x == c ==> p == q * q)
      && (x == c - q || x == c + q ==> p == 0)
      && (c - q < x < c + q ==> p > 0)
      && (x < c - q || c + q < x ==> p < 0)
      && p <= q * q
  {
    var p := -(x - (c - q)) * (x - (c + q));
    var dx := x - c;
    assert p == q * q - dx * dx;
    assert dx * dx >= 0;
    if c - q < x < c + q {
      MixedSignProduct(x - (c - q), x - (c + q));
    } else if x < c - q || c + q < x {
      SameSignProduct(x - (c - q), x - (c + q));
    }
  }

  /** Dividing by a positive integer keeps the sign of the numerator, and a numerator at most the divisor gives at most 1. */
  lemma RatioSign(p: int, d: int)
    requires d >= 1
    ensures p > 0 ==> p as real / d as real > 0.0
    ensures p == 0 ==> p as real / d as real == 0.0
    ensures p < 0 ==> p as real / d as real < 0.0
    ensures p == d ==> p as real / d as real == 1.0
    ensures p <= d ==> p as real / d as real <= 1.0
  {
  }

  /**
   * The design comment's five conditions: the reward is 1 at the best
   * bucket, 0 at both ends of the good band, positive strictly inside it and
   * negative outside it; and it never exceeds 1.
   */
  lemma PendulumRewardShape(n: nat, x: nat)
    requires n >= 4
    ensures var (best, q, r) := (Best(n), HalfWidth(n), PendulumReward(n, x));
      && (x == best ==> r == 1.0)
      && (x == best - q || x == best + q ==> r == 0.0)
      && (best - q < x < best + q ==> r > 0.0)
      && (x < best - q || best + q < x ==> r < 0.0)
      && r <= 1.0
  {
    GoodBand(n);
    PendulumRewardFactored(n, x);
    BandProduct(x, Best(n), HalfWidth(n));
    RatioSign(Numerator(n, x), HalfWidth(n) * HalfWidth(n));
  }

  /**
   * `get_reward`: -10 for a finished episode, otherwise the pendulum
   * reward; since no episode finishes, it is always the pendulum reward,
   * which peaks at 1. Four pendulum buckets make the coefficient finite.
   */
  function GetReward(task: BalanceTask, obs: AcrobotCommon.Observation): (r: real)
    requires Configured(task) && task.n_pendulum_digitization >= 4
    ensures ShouldFinishEpisode(task, obs) ==> r == -10.0
    ensures r == PendulumReward(task.n_pendulum_digitization, State(task, obs).n_pendulum_rad)
    ensures r <= 1.0
  {
    if ShouldFinishEpisode(task, obs) then -10.0
    else
      var n := task.n_pendulum_digitization;
      var x := State(task, obs).n_pendulum_rad;
      PendulumRewardShape(n, x);
      PendulumReward(n, x)
  }

  /** The elbow's starting angle is drawn from [-pi/2, pi/2) when swinging up, otherwise from [-pi/10, pi/10). */
  predicate InitialElbowAngle(task: BalanceTask, x: real) {
    if task.do_swing then -(AcrobotCommon.PI / 2.0) <= x < AcrobotCommon.PI / 2.0
    else -(AcrobotCommon.PI / 10.0) <= x < AcrobotCommon.PI / 10.0
  }

  /**
   * `init_episode`: sets the elbow angle to the drawn value (a parameter)
   * and the shoulder angle to 0; velocities are left as they are. Both
   * `unwrap`s succeed because both joints are hinges.
   */
  method InitEpisode(task: BalanceTask, acrobot: Acrobot, elbow_qpos: real)
    requires acrobot.Valid() && InitialElbowAngle(task, elbow_qpos)
    modifies acrobot.physics.qpos
    ensures acrobot.physics.Qpos(Hinge, acrobot.elbow_id) == Ok([elbow_qpos])
    ensures acrobot.physics.Qpos(Hinge, acrobot.shoulder_id) == Ok([0.0])
    ensures var m := acrobot.physics.model;
      acrobot.physics.State() == old(acrobot.physics.State()).(
        qpos := Splice(Splice(old(acrobot.physics.qpos[..]), m.jnt_qposadr[acrobot.elbow_id.index], [elbow_qpos]),
                       m.jnt_qposadr[acrobot.shoulder_id.index], [0.0]))
  {
    var physics := acrobot.physics;
    var r := physics.SetQpos(Hinge, acrobot.elbow_id, [elbow_qpos]);
    assert r.Ok?;
    r := physics.SetQpos(Hinge, acrobot.shoulder_id, [0.0]);
    assert r.Ok?;
  }

  /** `discount`: the configured factor. */
  function Discount(task: BalanceTask): (r: real)
    ensures r == task.discount
  {
    task.discount
  }

  /** This program's `AcrobotAction`: a torque for one actuator. */
  datatype AcrobotAction = AcrobotAction(actuator_id: ActuatorId, torque: real)

  /** `apply`: the torque becomes the actuator's control, with no range check. */
  method Apply(action: AcrobotAction, actuators: Actuators)
    requires actuators.physics.Valid() && action.actuator_id.index < actuators.physics.model.nu()
    modifies actuators.physics.ctrl
    ensures actuators.physics.State() ==
      old(actuators.physics.State()).(ctrl := old(actuators.physics.ctrl[..])[action.actuator_id.index := action.torque])
    ensures actuators.physics.Ctrl(action.actuator_id) == action.torque
  {
    actuators.Set(action.actuator_id, action.torque);
  }
}
