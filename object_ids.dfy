/**
 * Typed object handles (`ObjectId<O>` of the MuJoCo binding).
 *
 * A handle is a plain index whose category is a phantom type parameter, so a
 * joint handle cannot be passed where an actuator handle is expected: Dafny's
 * type checker rejects it, as rustc does.
 */
module ObjectIds {

  /** An index into the namespace of category `O`. */
  datatype ObjectId<O> = ObjectId(index: nat)

  /** Category markers (`obj::Body`, `obj::Joint`, ...). */
  datatype Body = Body
  datatype Joint = Joint
  datatype Dof = Dof
  datatype Actuator = Actuator
  datatype Plugin = Plugin
  datatype Equality = Equality

  type BodyId = ObjectId<Body>
  type JointId = ObjectId<Joint>
  type DofId = ObjectId<Dof>
  type ActuatorId = ObjectId<Actuator>
  type PluginId = ObjectId<Plugin>
  type EqualityId = ObjectId<Equality>

  /** The run-time category tag `O::TYPE` (`mjtObj`); categories not listed fall under `OtherType`. */
  datatype ObjType =
    | BodyType | XBodyType | JointType | DofType | GeomType | SiteType | CameraType
    | LightType | EqualityType | TendonType | ActuatorType | PluginType | OtherType
}
