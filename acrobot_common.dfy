/**
 * What `examples/acrobot-qtable/src/lib.rs` and `src/main.rs` both define:
 * the acrobot (a physics plus the handles of its two hinge joints and its
 * actuator), its observation, and the mixed-radix state encoding both tasks
 * use.
 */
module AcrobotCommon {
  import opened Wrappers
  import opened ObjectIds
  import opened Joint
  import opened Model
  import opened Physics

  /** `std::f64::consts::PI`, written out to the precision of the `f64` constant. */
  const PI: real := 3.141592653589793

  /**
   * `AcrobotObservation`. The source stores each joint angle as a sine and
   * cosine pair and both balance tasks recover the angle with `atan2`; this model
   * stores the recovered angle.
   */
  datatype Observation = Observation(
    elbow_rad: real, shoulder_rad: real, elbow_velocity: real, shoulder_velocity: real)

  /** `Acrobot`: the physics of `acrobot.xml` with the handles resolved by name. */
  class Acrobot {
    const physics: Physics
    const elbow_id: JointId
    const shoulder_id: JointId
    const actuator_id: ActuatorId

    /** The loaded model has two distinct hinge joints with degrees of freedom, and the actuator exists. */
    ghost predicate Valid() {
      && physics.Valid()
      && elbow_id.index < physics.model.njnt() && shoulder_id.index < physics.model.njnt()
      && elbow_id != shoulder_id
      && physics.model.jnt_type[elbow_id.index] == Hinge && physics.model.jnt_type[shoulder_id.index] == Hinge
      && physics.model.jnt_dofadr[elbow_id.index].Some? && physics.model.jnt_dofadr[shoulder_id.index].Some?
      && actuator_id.index < physics.model.nu()
    }

    constructor (physics: Physics, elbow_id: JointId, shoulder_id: JointId, actuator_id: ActuatorId)
      ensures this.physics == physics && this.elbow_id == elbow_id
      ensures this.shoulder_id == shoulder_id && this.actuator_id == actuator_id
    {
      this.physics := physics;
      this.elbow_id := elbow_id;
      this.shoulder_id := shoulder_id;
      this.actuator_id := actuator_id;
    }
  }

  /** Increasing a factor increases a product of naturals. */
  lemma MulMonotone(m: nat, b: nat, c: nat)
    requires b <= c
    ensures m * b <= m * c
  {
    assert m * c - m * b == m * (c - b);
  }

  /** One mixed-radix step: the low digit `low` plus `radix` times the higher part `high`. */
  function Digit(low: nat, high: nat, radix: nat): nat {
    low + radix * high
  }

  /** One mixed-radix step stays below `radix * n` for digits `low < radix`, `high < n`. */
  lemma RadixStepBound(low: nat, high: nat, radix: nat, n: nat)
    requires low < radix && high < n
    ensures Digit(low, high, radix) < radix * n
  {
    MulMonotone(radix, high, n - 1);
    assert radix * (n - 1) == radix * n - radix;
  }

  /** One mixed-radix step is undone uniquely. */
  lemma RadixStepInjective(low: nat, high: nat, low': nat, high': nat, radix: nat)
    requires low < radix && low' < radix && Digit(low, high, radix) == Digit(low', high', radix)
    ensures low == low' && high == high'
  {
    if high < high' {
      MulMonotone(radix, high + 1, high');
      assert false;
    } else if high' < high {
      MulMonotone(radix, high' + 1, high);
      assert false;
    }
  }

  /**
   * The flat index both tasks build from four digits in radices `m0`, `m1`,
   * `m2` (the top digit's radix bounds it but does not enter the index),
   * with `x0` varying fastest; written in Horner form.
   */
  function Encode4(x0: nat, x1: nat, x2: nat, x3: nat, m0: nat, m1: nat, m2: nat): nat {
    Digit(x0, Digit(x1, Digit(x2, x3, m2), m1), m0)
  }

  /** The index is the sum of place values the source writes out, `x0 + x1 m0 + x2 m0 m1 + x3 m0 m1 m2`. */
  lemma Encode4Expanded(x0: nat, x1: nat, x2: nat, x3: nat, m0: nat, m1: nat, m2: nat)
    ensures Encode4(x0, x1, x2, x3, m0, m1, m2) == x0 + x1 * m0 + x2 * m0 * m1 + x3 * m0 * m1 * m2
  {
    calc {
      Encode4(x0, x1, x2, x3, m0, m1, m2);
      x0 + m0 * (x1 + m1 * (x2 + m2 * x3));
      x0 + m0 * x1 + m0 * (m1 * (x2 + m2 * x3));
      x0 + m0 * x1 + m0 * (m1 * x2 + m1 * (m2 * x3));
      x0 + x1 * m0 + x2 * m0 * m1 + x3 * m0 * m1 * m2;
    }
  }

  /** Digits below their radices give an index below the product of the radices. */
  lemma Encode4Bound(x0: nat, x1: nat, x2: nat, x3: nat, m0: nat, m1: nat, m2: nat, m3: nat)
    requires x0 < m0 && x1 < m1 && x2 < m2 && x3 < m3
    ensures Encode4(x0, x1, x2, x3, m0, m1, m2) < m0 * (m1 * (m2 * m3))
  {
    var d2 := Digit(x2, x3, m2);
    var d1 := Digit(x1, d2, m1);
    RadixStepBound(x2, x3, m2, m3);
    RadixStepBound(x1, d2, m1, m2 * m3);
    RadixStepBound(x0, d1, m0, m1 * (m2 * m3));
  }

  /** Digits below their radices are determined by the index. */
  lemma Encode4Injective(x0: nat, x1: nat, x2: nat, x3: nat, y0: nat, y1: nat, y2: nat, y3: nat, m0: nat, m1: nat, m2: nat)
    requires x0 < m0 && x1 < m1 && x2 < m2 && y0 < m0 && y1 < m1 && y2 < m2
    requires Encode4(x0, x1, x2, x3, m0, m1, m2) == Encode4(y0, y1, y2, y3, m0, m1, m2)
    ensures x0 == y0 && x1 == y1 && x2 == y2 && x3 == y3
  {
    RadixStepInjective(x0, Digit(x1, Digit(x2, x3, m2), m1), y0, Digit(y1, Digit(y2, y3, m2), m1), m0);
    RadixStepInjective(x1, Digit(x2, x3, m2), y1, Digit(y2, y3, m2), m1);
    RadixStepInjective(x2, x3, y2, y3, m2);
  }
}
