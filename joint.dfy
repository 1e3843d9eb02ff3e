/** The four joint kinds (`joint::Free`, `Ball`, `Hinge`, `Slide`) and their slice sizes. */
module Joint {

  /** `mjtJoint`: the kind a joint is declared with in the model. */
  datatype JointKind = Free | Ball | Slide | Hinge

  /** `J::QPOS_SIZE`: number of `qpos` cells a joint of this kind occupies. */
  function QposSize(k: JointKind): (n: nat)
    ensures 1 <= n <= 7
    ensures n == QvelSize(k) + (if k.Free? || k.Ball? then 1 else 0)
  {
    match k
    case Free => 7   // x, y, z and a unit quaternion
    case Ball => 4   // a unit quaternion
    case Hinge => 1  // angle
    case Slide => 1  // position
  }

  /** `J::QVEL_SIZE`: number of `qvel` cells (degrees of freedom) of this kind. */
  function QvelSize(k: JointKind): (n: nat)
    ensures 1 <= n <= 6
    ensures k.Free? <==> n == 6
    ensures k.Ball? <==> n == 3
    ensures k.Hinge? || k.Slide? <==> n == 1
  {
    match k
    case Free => 6   // linear and angular velocity
    case Ball => 3   // angular velocity
    case Hinge => 1
    case Slide => 1
  }
}
