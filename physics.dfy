/**
 * `src/physics.rs`: the kind-checked accessor layer over MuJoCo's flat
 * runtime buffers.
 *
 * `Physics` owns the static model (a value: the layer never writes it) and
 * the runtime buffers of `mjData` (fixed-size arrays written in place). The
 * ghost function `State` is the whole runtime state as a value; every setter
 * states the new `State` in terms of the old one, so "nothing else changes"
 * is part of each contract.
 */
module Physics {
  import opened Wrappers
  import opened ObjectIds
  import opened Joint
  import opened Model

  /** The error variants `physics.rs` constructs. */
  datatype Error =
    | JointTypeNotMatch(expected: JointKind, found: JointKind)
    | ActuatorStateless(actuator: ActuatorId)
    | PluginStateless(plugin: PluginId)
    | BodyNotMocap(body: BodyId)

  /** `s` after `s[at..at + |v|].copy_from_slice(v)`. */
  function Splice(s: seq<real>, at: nat, v: seq<real>): (r: seq<real>)
    requires at + |v| <= |s|
    ensures |r| == |s|
    ensures r[at..at + |v|] == v
    ensures forall i :: 0 <= i < |s| && !(at <= i < at + |v|) ==> r[i] == s[i]
  {
    s[..at] + v + s[at + |v|..]
  }

  /** Writing one slice leaves a disjoint slice as it was. */
  lemma SpliceKeepsDisjoint(s: seq<real>, at: nat, v: seq<real>, lo: nat, hi: nat)
    requires at + |v| <= |s| && lo <= hi <= |s|
    requires hi <= at || at + |v| <= lo
    ensures Splice(s, at, v)[lo..hi] == s[lo..hi]
  {
    var r := Splice(s, at, v);
    assert forall i :: lo <= i < hi ==> r[i] == s[i];
  }

  /** `copy_from_slice`: copies `src` into `dst[at..at + |src|]`. */
  method CopyFromSlice(dst: array<real>, at: nat, src: seq<real>)
    requires at + |src| <= dst.Length
    modifies dst
    ensures dst[..] == Splice(old(dst[..]), at, src)
  {
    for i := 0 to |src|
      invariant forall j :: 0 <= j < dst.Length ==> dst[j] == (if at <= j < at + i then src[j - at] else old(dst[j]))
    {
      dst[at + i] := src[i];
    }
    ghost var want := Splice(old(dst[..]), at, src);
    assert forall j :: 0 <= j < dst.Length ==> dst[..][j] == want[j] by {
      forall j | 0 <= j < dst.Length ensures dst[..][j] == want[j] {
        if at <= j < at + |src| {
          assert want[j] == want[at..at + |src|][j - at];
        }
      }
    }
  }

  /** The runtime state (`mjData`) as a value. */
  datatype Data = Data(
    time: real,
    qpos: seq<real>, qvel: seq<real>, ctrl: seq<real>, act: seq<real>,
    qacc_warmstart: seq<real>, qfrc_applied: seq<real>, xfrc_applied: seq<real>,
    plugin_state: seq<real>, eq_active: seq<bool>, mocap_pos: seq<real>, mocap_quat: seq<real>)

  /** The buffer sizes `mj_makeData` allocates for a model. */
  ghost predicate Fits(m: Model, d: Data) {
    && |d.qpos| == m.nq && |d.qvel| == m.nv && |d.ctrl| == m.nu() && |d.act| == m.na
    && |d.qacc_warmstart| == m.nv && |d.qfrc_applied| == m.nv
    && |d.xfrc_applied| == 6 * m.nbody() && |d.plugin_state| == m.npluginstate
    && |d.eq_active| == m.neq && |d.mocap_pos| == 3 * m.nmocap && |d.mocap_quat| == 4 * m.nmocap
  }

  /** A freshly allocated buffer holding `s`, as `mj_makeData` allocates one. */
  method Buffer(s: seq<real>) returns (a: array<real>)
    ensures fresh(a) && a[..] == s
  {
    a := new real[|s|](i requires 0 <= i < |s| => s[i]);
  }

  /** A freshly allocated flag buffer holding `s`. */
  method BoolBuffer(s: seq<bool>) returns (a: array<bool>)
    ensures fresh(a) && a[..] == s
  {
    a := new bool[|s|](i requires 0 <= i < |s| => s[i]);
  }

  class Physics {
    const model: Model
    var time: real
    const qpos: array<real>
    const qvel: array<real>
    const ctrl: array<real>
    const act: array<real>
    const qacc_warmstart: array<real>
    const qfrc_applied: array<real>
    const xfrc_applied: array<real>
    const plugin_state: array<real>
    const eq_active: array<bool>
    const mocap_pos: array<real>
    const mocap_quat: array<real>

    /** The model is well formed, every buffer has its model-given size, and no two buffers alias. */
    ghost predicate Valid() {
      && model.WellFormed()
      && qpos.Length == model.nq && qvel.Length == model.nv && ctrl.Length == model.nu() && act.Length == model.na
      && qacc_warmstart.Length == model.nv && qfrc_applied.Length == model.nv
      && xfrc_applied.Length == 6 * model.nbody() && plugin_state.Length == model.npluginstate
      && eq_active.Length == model.neq && mocap_pos.Length == 3 * model.nmocap && mocap_quat.Length == 4 * model.nmocap
      && qpos != qvel && qpos != ctrl && qpos != act && qpos != qacc_warmstart && qpos != qfrc_applied && qpos != xfrc_applied && qpos != plugin_state && qpos != mocap_pos && qpos != mocap_quat
      && qvel != ctrl && qvel != act && qvel != qacc_warmstart && qvel != qfrc_applied && qvel != xfrc_applied && qvel != plugin_state && qvel != mocap_pos && qvel != mocap_quat
      && ctrl != act && ctrl != qacc_warmstart && ctrl != qfrc_applied && ctrl != xfrc_applied && ctrl != plugin_state && ctrl != mocap_pos && ctrl != mocap_quat
      && act != qacc_warmstart && act != qfrc_applied && act != xfrc_applied && act != plugin_state && act != mocap_pos && act != mocap_quat
      && qacc_warmstart != qfrc_applied && qacc_warmstart != xfrc_applied && qacc_warmstart != plugin_state && qacc_warmstart != mocap_pos && qacc_warmstart != mocap_quat
      && qfrc_applied != xfrc_applied && qfrc_applied != plugin_state && qfrc_applied != mocap_pos && qfrc_applied != mocap_quat
      && xfrc_applied != plugin_state && xfrc_applied != mocap_pos && xfrc_applied != mocap_quat
      && plugin_state != mocap_pos && plugin_state != mocap_quat
      && mocap_pos != mocap_quat
    }

    /** The whole runtime state. */
    ghost function State(): (d: Data)
      reads this, qpos, qvel, ctrl, act, qacc_warmstart, qfrc_applied, xfrc_applied,
        plugin_state, eq_active, mocap_pos, mocap_quat
      ensures Valid() ==> Fits(model, d)
    {
      Data(time, qpos[..], qvel[..], ctrl[..], act[..], qacc_warmstart[..], qfrc_applied[..],
           xfrc_applied[..], plugin_state[..], eq_active[..], mocap_pos[..], mocap_quat[..])
    }

    /** A model together with the runtime state the engine created for it. */
    constructor (model: Model, init: Data)
      requires model.WellFormed() && Fits(model, init)
      ensures Valid() && this.model == model && State() == init
    {
      this.model := model;
      time := init.time;
      var qpos' := Buffer(init.qpos);
      var qvel' := Buffer(init.qvel);
      var ctrl' := Buffer(init.ctrl);
      var act' := Buffer(init.act);
      var qacc_warmstart' := Buffer(init.qacc_warmstart);
      var qfrc_applied' := Buffer(init.qfrc_applied);
      var xfrc_applied' := Buffer(init.xfrc_applied);
      var plugin_state' := Buffer(init.plugin_state);
      var eq_active' := BoolBuffer(init.eq_active);
      var mocap_pos' := Buffer(init.mocap_pos);
      var mocap_quat' := Buffer(init.mocap_quat);
      qpos := qpos';
      qvel := qvel';
      ctrl := ctrl';
      act := act';
      qacc_warmstart := qacc_warmstart';
      qfrc_applied := qfrc_applied';
      xfrc_applied := xfrc_applied';
      plugin_state := plugin_state';
      eq_active := eq_active';
      mocap_pos := mocap_pos';
      mocap_quat := mocap_quat';
    }

    /** `object_count_of::<O>()`: the number of objects of a category; 0 for every category not listed in the source. */
    function ObjectCountOf(t: ObjType): (n: nat)
      ensures t.BodyType? ==> n == model.nbody()
      ensures t.JointType? ==> n == model.njnt()
      ensures t.ActuatorType? ==> n == model.nu()
      ensures t.GeomType? ==> n == model.ngeom
      ensures t.SiteType? ==> n == model.nsite
      ensures t.CameraType? ==> n == model.ncam
      ensures t.LightType? ==> n == model.nlight
      ensures t.TendonType? ==> n == model.ntendon
      ensures t.DofType? || t.XBodyType? || t.EqualityType? || t.PluginType? || t.OtherType? ==> n == 0
    {
      match t
      case BodyType => model.nbody()
      case JointType => model.njnt()
      case GeomType => model.ngeom
      case SiteType => model.nsite
      case CameraType => model.ncam
      case LightType => model.nlight
      case TendonType => model.ntendon
      case ActuatorType => model.nu()
      case _ => 0
    }

    function Time(): real
      reads this
    {
      time
    }

    method SetTime(t: real)
      requires Valid()
      modifies this`time
      ensures State() == old(State()).(time := t)
      ensures Time() == t
    {
      time := t;
    }

    /** `ctrl`: the control input of an actuator. */
    function Ctrl(id: ActuatorId): real
      reads ctrl
      requires Valid() && id.index < model.nu()
    {
      ctrl[id.index]
    }

    /** `set_ctrl`: writes the one cell, with no clamping to the control range. */
    method SetCtrl(id: ActuatorId, value: real)
      requires Valid() && id.index < model.nu()
      modifies ctrl
      ensures State() == old(State()).(ctrl := old(ctrl[..])[id.index := value])
      ensures Ctrl(id) == value
    {
      ctrl[id.index] := value;
    }

    /** `act`: the activation of an actuator, `None` for a stateless one. */
    function Act(id: ActuatorId): (r: Option<real>)
      reads act
      requires Valid() && id.index < model.nu()
      ensures r.None? <==> model.actuator_actadr[id.index].None?
      ensures r.Some? ==> r.value == act[model.actuator_actadr[id.index].value]
    {
      match model.actuator_actadr[id.index]
      case None => None
      case Some(offset) => Some(act[offset])
    }

    /** `set_act`: fails with `ActuatorStateless` and changes nothing when the actuator has no activation. */
    method SetAct(id: ActuatorId, value: real) returns (r: Result<(), Error>)
      requires Valid() && id.index < model.nu()
      modifies act
      ensures r.Err? <==> model.actuator_actadr[id.index].None?
      ensures r.Err? ==> r.error == ActuatorStateless(id) && State() == old(State())
      ensures r.Ok? ==> State() == old(State()).(act := old(act[..])[model.actuator_actadr[id.index].value := value])
      ensures r.Ok? ==> Act(id) == Some(value)
    {
      match model.actuator_actadr[id.index]
      case None =>
        return Err(ActuatorStateless(id));
      case Some(offset) =>
        act[offset] := value;
        return Ok(());
    }

    /** `qpos::<J>`: the joint's position slice, if the joint is of kind `kind`. */
    function Qpos(kind: JointKind, id: JointId): (r: Result<seq<real>, Error>)
      reads qpos
      requires Valid() && id.index < model.njnt()
      ensures r.Err? <==> model.jnt_type[id.index] != kind
      ensures r.Err? ==> r.error == JointTypeNotMatch(kind, model.jnt_type[id.index])
      ensures r.Ok? ==> |r.value| == QposSize(kind)
      ensures r.Ok? ==> forall i :: 0 <= i < QposSize(kind) ==> r.value[i] == qpos[model.jnt_qposadr[id.index] + i]
    {
      var found := model.jnt_type[id.index];
      if found == kind then
        var offset := model.jnt_qposadr[id.index];
        Ok(qpos[offset..offset + QposSize(kind)])
      else
        Err(JointTypeNotMatch(kind, found))
    }

    /**
     * `set_qpos::<J>`: on a kind match overwrites exactly the joint's slice,
     * so that `Qpos` returns the written value and every other joint reads as
     * before; on a mismatch fails and changes nothing.
     */
    method SetQpos(kind: JointKind, id: JointId, v: seq<real>) returns (r: Result<(), Error>)
      requires Valid() && id.index < model.njnt() && |v| == QposSize(kind)
      modifies qpos
      ensures r.Err? <==> model.jnt_type[id.index] != kind
      ensures r.Err? ==> r.error == JointTypeNotMatch(kind, model.jnt_type[id.index]) && State() == old(State())
      ensures r.Ok? ==> State() == old(State()).(qpos := Splice(old(qpos[..]), model.jnt_qposadr[id.index], v))
      ensures r.Ok? ==> Qpos(kind, id) == Ok(v)
      ensures forall k: JointId, kk: JointKind {:trigger Qpos(kk, k)} ::
        k.index < model.njnt() && k != id ==> Qpos(kk, k) == old(Qpos(kk, k))
    {
      var found := model.jnt_type[id.index];
      if found == kind {
        var offset := model.jnt_qposadr[id.index];
        CopyFromSlice(qpos, offset, v);
        assert qpos[offset..offset + QposSize(kind)] == v;
        forall k: JointId, kk: JointKind | k.index < model.njnt() && k != id
          ensures Qpos(kk, k) == old(Qpos(kk, k))
        {
          assert model.QposApart(id.index, k.index);
          var a := model.jnt_qposadr[k.index];
          var n := QposSize(model.jnt_type[k.index]);
          SpliceKeepsDisjoint(old(qpos[..]), offset, v, a, a + n);
          assert qpos[a..a + n] == old(qpos[a..a + n]);
        }
        return Ok(());
      } else {
        return Err(JointTypeNotMatch(kind, found));
      }
    }

    /**
     * `qvel::<J>`: the joint's velocity slice, if the joint is of kind
     * `kind`. The source's `expect` demands a degree-of-freedom address once
     * the kinds match.
     */
    function Qvel(kind: JointKind, id: JointId): (r: Result<seq<real>, Error>)
      reads qvel
      requires Valid() && id.index < model.njnt()
      requires model.jnt_type[id.index] == kind ==> model.jnt_dofadr[id.index].Some?
      ensures r.Err? <==> model.jnt_type[id.index] != kind
      ensures r.Err? ==> r.error == JointTypeNotMatch(kind, model.jnt_type[id.index])
      ensures r.Ok? ==> |r.value| == QvelSize(kind)
      ensures r.Ok? ==> forall i :: 0 <= i < QvelSize(kind) ==> r.value[i] == qvel[model.jnt_dofadr[id.index].value + i]
    {
      var found := model.jnt_type[id.index];
      if found == kind then
        var offset := model.jnt_dofadr[id.index].value;
        Ok(qvel[offset..offset + QvelSize(kind)])
      else
        Err(JointTypeNotMatch(kind, found))
    }

    /**
     * `set_qvel::<J>`: like `SetQpos` on the `qvel` slice at the joint's
     * degree-of-freedom address; a joint without one is a successful no-op.
     */
    method SetQvel(kind: JointKind, id: JointId, v: seq<real>) returns (r: Result<(), Error>)
      requires Valid() && id.index < model.njnt() && |v| == QvelSize(kind)
      modifies qvel
      ensures r.Err? <==> model.jnt_type[id.index] != kind
      ensures r.Err? ==> r.error == JointTypeNotMatch(kind, model.jnt_type[id.index]) && State() == old(State())
      ensures r.Ok? && model.jnt_dofadr[id.index].None? ==> State() == old(State())
      ensures r.Ok? && model.jnt_dofadr[id.index].Some? ==>
        && State() == old(State()).(qvel := Splice(old(qvel[..]), model.jnt_dofadr[id.index].value, v))
        && Qvel(kind, id) == Ok(v)
      ensures forall k: JointId, kk: JointKind {:trigger Qvel(kk, k)} ::
        k.index < model.njnt() && k != id && (model.jnt_type[k.index] == kk ==> model.jnt_dofadr[k.index].Some?) ==>
        Qvel(kk, k) == old(Qvel(kk, k))
    {
      var found := model.jnt_type[id.index];
      if found == kind {
        if model.jnt_dofadr[id.index].Some? {
          var offset := model.jnt_dofadr[id.index].value;
          CopyFromSlice(qvel, offset, v);
          assert qvel[offset..offset + QvelSize(kind)] == v;
          forall k: JointId, kk: JointKind |
            k.index < model.njnt() && k != id && (model.jnt_type[k.index] == kk ==> model.jnt_dofadr[k.index].Some?)
            ensures Qvel(kk, k) == old(Qvel(kk, k))
          {
            if model.jnt_type[k.index] == kk {
              assert model.DofApart(id.index, k.index);
              var a := model.jnt_dofadr[k.index].value;
              var n := QvelSize(kk);
              SpliceKeepsDisjoint(old(qvel[..]), offset, v, a, a + n);
              assert qvel[a..a + n] == old(qvel[a..a + n]);
            }
          }
        }
        return Ok(());
      } else {
        return Err(JointTypeNotMatch(kind, found));
      }
    }

    function QaccWarmstart(id: DofId): real
      reads qacc_warmstart
      requires Valid() && id.index < model.nv
    {
      qacc_warmstart[id.index]
    }

    /** `set_qacc_warmstart`: writes the one cell. */
    method SetQaccWarmstart(id: DofId, value: real)
      requires Valid() && id.index < model.nv
      modifies qacc_warmstart
      ensures State() == old(State()).(qacc_warmstart := old(qacc_warmstart[..])[id.index := value])
      ensures QaccWarmstart(id) == value
    {
      qacc_warmstart[id.index] := value;
    }

    /** `plugin_state`: the state cell of a plugin, `None` for a stateless one. */
    function PluginState(id: PluginId): (r: Option<real>)
      reads plugin_state
      requires Valid() && id.index < |model.plugin_stateadr|
      ensures r.None? <==> model.plugin_stateadr[id.index].None?
      ensures r.Some? ==> r.value == plugin_state[model.plugin_stateadr[id.index].value]
    {
      match model.plugin_stateadr[id.index]
      case None => None
      case Some(offset) => Some(plugin_state[offset])
    }

    /** `set_plugin_state`: fails with `PluginStateless` and changes nothing when the plugin has no state. */
    method SetPluginState(id: PluginId, value: real) returns (r: Result<(), Error>)
      requires Valid() && id.index < |model.plugin_stateadr|
      modifies plugin_state
      ensures r.Err? <==> model.plugin_stateadr[id.index].None?
      ensures r.Err? ==> r.error == PluginStateless(id) && State() == old(State())
      ensures r.Ok? ==> State() == old(State()).(plugin_state := old(plugin_state[..])[model.plugin_stateadr[id.index].value := value])
      ensures r.Ok? ==> PluginState(id) == Some(value)
    {
      match model.plugin_stateadr[id.index]
      case None =>
        return Err(PluginStateless(id));
      case Some(offset) =>
        plugin_state[offset] := value;
        return Ok(());
    }

    function QfrcApplied(id: DofId): real
      reads qfrc_applied
      requires Valid() && id.index < model.nv
    {
      qfrc_applied[id.index]
    }

    /** `set_qfrc_applied`: writes the one cell. */
    method SetQfrcApplied(id: DofId, value: real)
      requires Valid() && id.index < model.nv
      modifies qfrc_applied
      ensures State() == old(State()).(qfrc_applied := old(qfrc_applied[..])[id.index := value])
      ensures QfrcApplied(id) == value
    {
      qfrc_applied[id.index] := value;
    }

    /** `xfrc_applied`: the six cells of the body's row (force and torque). */
    function XfrcApplied(id: BodyId): (r: seq<real>)
      reads xfrc_applied
      requires Valid() && id.index < model.nbody()
      ensures |r| == 6
      ensures forall i :: 0 <= i < 6 ==> r[i] == xfrc_applied[6 * id.index + i]
    {
      xfrc_applied[6 * id.index .. 6 * id.index + 6]
    }

    /** `set_xfrc_applied`: overwrites the body's six cells, which `XfrcApplied` then returns. */
    method SetXfrcApplied(id: BodyId, value: seq<real>)
      requires Valid() && id.index < model.nbody() && |value| == 6
      modifies xfrc_applied
      ensures State() == old(State()).(xfrc_applied := Splice(old(xfrc_applied[..]), 6 * id.index, value))
      ensures XfrcApplied(id) == value
      ensures forall b: BodyId {:trigger XfrcApplied(b)} :: b.index < model.nbody() && b != id ==> XfrcApplied(b) == old(XfrcApplied(b))
    {
      CopyFromSlice(xfrc_applied, 6 * id.index, value);
      assert xfrc_applied[6 * id.index .. 6 * id.index + 6] == value;
      forall b: BodyId | b.index < model.nbody() && b != id ensures XfrcApplied(b) == old(XfrcApplied(b)) {
        SpliceKeepsDisjoint(old(xfrc_applied[..]), 6 * id.index, value, 6 * b.index, 6 * b.index + 6);
      }
    }

    function EqActive(id: EqualityId): bool
      reads eq_active
      requires Valid() && id.index < model.neq
    {
      eq_active[id.index]
    }

    /** `set_eq_active`: writes the one flag. */
    method SetEqActive(id: EqualityId, value: bool)
      requires Valid() && id.index < model.neq
      modifies eq_active
      ensures State() == old(State()).(eq_active := old(eq_active[..])[id.index := value])
      ensures EqActive(id) == value
    {
      eq_active[id.index] := value;
    }

    /** `mocap_pos`: the position of a mocap body, `None` for a body that is not one. */
    function MocapPos(id: BodyId): (r: Option<(real, real, real)>)
      reads mocap_pos
      requires Valid() && id.index < model.nbody()
      ensures r.None? <==> model.body_mocapid[id.index].None?
      ensures r.Some? ==> var o := 3 * model.body_mocapid[id.index].value;
        r.value == (mocap_pos[o], mocap_pos[o + 1], mocap_pos[o + 2])
    {
      match model.body_mocapid[id.index]
      case None => None
      case Some(mocap) =>
        var offset := mocap * 3;
        Some((mocap_pos[offset], mocap_pos[offset + 1], mocap_pos[offset + 2]))
    }

    /** `set_mocap_pos`: fails with `BodyNotMocap` and changes nothing for a body that is not a mocap body. */
    method SetMocapPos(id: BodyId, pos: (real, real, real)) returns (r: Result<(), Error>)
      requires Valid() && id.index < model.nbody()
      modifies mocap_pos
      ensures r.Err? <==> model.body_mocapid[id.index].None?
      ensures r.Err? ==> r.error == BodyNotMocap(id) && State() == old(State())
      ensures r.Ok? ==> State() == old(State()).(mocap_pos := Splice(old(mocap_pos[..]), 3 * model.body_mocapid[id.index].value, [pos.0, pos.1, pos.2]))
      ensures r.Ok? ==> MocapPos(id) == Some(pos)
    {
      match model.body_mocapid[id.index]
      case None =>
        return Err(BodyNotMocap(id));
      case Some(mocap) =>
        CopyFromSlice(mocap_pos, mocap * 3, [pos.0, pos.1, pos.2]);
        assert mocap_pos[mocap * 3 .. mocap * 3 + 3] == [pos.0, pos.1, pos.2];
        return Ok(());
    }

    /** `mocap_quat`: the orientation of a mocap body, `None` for a body that is not one. */
    function MocapQuat(id: BodyId): (r: Option<(real, real, real, real)>)
      reads mocap_quat
      requires Valid() && id.index < model.nbody()
      ensures r.None? <==> model.body_mocapid[id.index].None?
      ensures r.Some? ==> var o := 4 * model.body_mocapid[id.index].value;
        r.value == (mocap_quat[o], mocap_quat[o + 1], mocap_quat[o + 2], mocap_quat[o + 3])
    {
      match model.body_mocapid[id.index]
      case None => None
      case Some(mocap) =>
        var offset := mocap * 4;
        Some((mocap_quat[offset], mocap_quat[offset + 1], mocap_quat[offset + 2], mocap_quat[offset + 3]))
    }

    /** `set_mocap_quat`: fails with `BodyNotMocap` and changes nothing for a body that is not a mocap body. */
    method SetMocapQuat(id: BodyId, quat: (real, real, real, real)) returns (r: Result<(), Error>)
      requires Valid() && id.index < model.nbody()
      modifies mocap_quat
      ensures r.Err? <==> model.body_mocapid[id.index].None?
      ensures r.Err? ==> r.error == BodyNotMocap(id) && State() == old(State())
      ensures r.Ok? ==> State() == old(State()).(mocap_quat := Splice(old(mocap_quat[..]), 4 * model.body_mocapid[id.index].value, [quat.0, quat.1, quat.2, quat.3]))
      ensures r.Ok? ==> MocapQuat(id) == Some(quat)
    {
      match model.body_mocapid[id.index]
      case None =>
        return Err(BodyNotMocap(id));
      case Some(mocap) =>
        CopyFromSlice(mocap_quat, mocap * 4, [quat.0, quat.1, quat.2, quat.3]);
        assert mocap_quat[mocap * 4 .. mocap * 4 + 4] == [quat.0, quat.1, quat.2, quat.3];
        return Ok(());
    }
  }

  /** `Physics::actuators()`: a view of the physics through which only controls are written. */
  class Actuators {
    const physics: Physics

    constructor (physics: Physics)
      ensures this.physics == physics
    {
      this.physics := physics;
    }

    /** `Actuators::set`: delegates to `set_ctrl`. */
    method Set(id: ActuatorId, control: real)
      requires physics.Valid() && id.index < physics.model.nu()
      modifies physics.ctrl
      ensures physics.State() == old(physics.State()).(ctrl := old(physics.ctrl[..])[id.index := control])
    {
      physics.SetCtrl(id, control);
    }
  }
}
