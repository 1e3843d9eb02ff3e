/**
 * The static part of a loaded MuJoCo model (`mjModel`) that the accessor
 * layer consults, and the indexed reads of `src/physics/model.rs`.
 *
 * The accessor layer only ever borrows the model immutably, so it is a value
 * here. Address tables whose MuJoCo encoding is `-1` for "absent" are
 * `Option`s, as the binding returns them.
 */
module Model {
  import opened Wrappers
  import opened ObjectIds
  import opened Joint

  datatype Model = Model(
    // sizes of the runtime buffers
    nq: nat, nv: nat, na: nat, nmocap: nat, npluginstate: nat, neq: nat,
    // object counts that no table below determines
    ngeom: nat, nsite: nat, ncam: nat, nlight: nat, ntendon: nat,
    // per joint
    jnt_type: seq<JointKind>, jnt_qposadr: seq<nat>, jnt_dofadr: seq<Option<nat>>,
    // per actuator
    actuator_actadr: seq<Option<nat>>, actuator_ctrlrange: seq<(real, real)>,
    // per plugin
    plugin_stateadr: seq<Option<nat>>,
    // per body (`body_invweight0` is nbody x 2 and `body_pos` nbody x 3, row-major)
    body_parentid: seq<nat>, body_rootid: seq<nat>, body_mocapid: seq<Option<nat>>,
    body_invweight0: seq<real>, body_pos: seq<real>)
  {
    function njnt(): nat { |jnt_type| }
    function nu(): nat { |actuator_actadr| }
    function nbody(): nat { |body_parentid| }

    /** The `qpos` slices of two distinct joints do not overlap. */
    ghost predicate QposApart(j: nat, k: nat)
      requires j < njnt() && k < njnt() && |jnt_qposadr| == njnt()
    {
      jnt_qposadr[j] + QposSize(jnt_type[j]) <= jnt_qposadr[k] ||
      jnt_qposadr[k] + QposSize(jnt_type[k]) <= jnt_qposadr[j]
    }

    /** The `qvel` slices of two distinct joints that have degrees of freedom do not overlap. */
    ghost predicate DofApart(j: nat, k: nat)
      requires j < njnt() && k < njnt() && |jnt_dofadr| == njnt()
    {
      jnt_dofadr[j].None? || jnt_dofadr[k].None? ||
      jnt_dofadr[j].value + QvelSize(jnt_type[j]) <= jnt_dofadr[k].value ||
      jnt_dofadr[k].value + QvelSize(jnt_type[k]) <= jnt_dofadr[j].value
    }

    /**
     * What MuJoCo's compiler guarantees of every model it hands out: the
     * tables have one row per object, every address points inside its
     * buffer, and joints own disjoint slices.
     */
    ghost predicate WellFormed() {
      && |jnt_qposadr| == njnt() && |jnt_dofadr| == njnt()
      && (forall j :: 0 <= j < njnt() ==> jnt_qposadr[j] + QposSize(jnt_type[j]) <= nq)
      && (forall j :: 0 <= j < njnt() && jnt_dofadr[j].Some? ==> jnt_dofadr[j].value + QvelSize(jnt_type[j]) <= nv)
      && (forall j, k :: 0 <= j < njnt() && 0 <= k < njnt() && j != k ==> QposApart(j, k))
      && (forall j, k :: 0 <= j < njnt() && 0 <= k < njnt() && j != k ==> DofApart(j, k))
      && |actuator_ctrlrange| == nu()
      && (forall a :: 0 <= a < nu() && actuator_actadr[a].Some? ==> actuator_actadr[a].value < na)
      && (forall p :: 0 <= p < |plugin_stateadr| && plugin_stateadr[p].Some? ==> plugin_stateadr[p].value < npluginstate)
      && |body_rootid| == nbody() && |body_mocapid| == nbody()
      && (forall b :: 0 <= b < nbody() ==> body_parentid[b] < nbody() && body_rootid[b] < nbody())
      && (forall b :: 0 <= b < nbody() && body_mocapid[b].Some? ==> body_mocapid[b].value < nmocap)
      && |body_invweight0| == 2 * nbody() && |body_pos| == 3 * nbody()
    }

    /** `body_parentid`: the parent of a body, again a body handle. */
    function BodyParentId(id: BodyId): (r: BodyId)
      requires id.index < nbody()
      ensures r.index == body_parentid[id.index]
      ensures WellFormed() ==> r.index < nbody()
    {
      ObjectId(body_parentid[id.index])
    }

    /** `body_rootid`: the root of the kinematic tree a body belongs to. */
    function BodyRootId(id: BodyId): (r: BodyId)
      requires id.index < |body_rootid|
      ensures r.index == body_rootid[id.index]
      ensures WellFormed() && id.index < nbody() ==> r.index < nbody()
    {
      ObjectId(body_rootid[id.index])
    }

    /**
     * `body_invweight0` as written: cells `i` and `i + 1` with `i` the body
     * index, without the stride 2 of the nbody x 2 table.
     */
    function BodyInvweight0(id: BodyId): (r: (real, real))
      requires id.index + 1 < |body_invweight0|
      ensures r.0 == body_invweight0[id.index] && r.1 == body_invweight0[id.index + 1]
    {
      (body_invweight0[id.index], body_invweight0[id.index + 1])
    }

    /** `body_invweight0` read with the table's stride: the row of body `id`. */
    function BodyInvweight0Row(id: BodyId): (r: (real, real))
      requires WellFormed() && id.index < nbody()
      ensures [r.0, r.1] == body_invweight0[2 * id.index .. 2 * id.index + 2]
    {
      (body_invweight0[2 * id.index], body_invweight0[2 * id.index + 1])
    }

    /**
     * `body_pos` as written: cells `i`, `i + 1` and `i + 2` with `i` the
     * body index, without the stride 3 of the nbody x 3 table.
     */
    function BodyPos(id: BodyId): (r: (real, real, real))
      requires id.index + 2 < |body_pos|
      ensures r.0 == body_pos[id.index] && r.1 == body_pos[id.index + 1] && r.2 == body_pos[id.index + 2]
    {
      (body_pos[id.index], body_pos[id.index + 1], body_pos[id.index + 2])
    }

    /** `body_pos` read with the table's stride: the row of body `id`. */
    function BodyPosRow(id: BodyId): (r: (real, real, real))
      requires WellFormed() && id.index < nbody()
      ensures [r.0, r.1, r.2] == body_pos[3 * id.index .. 3 * id.index + 3]
    {
      (body_pos[3 * id.index], body_pos[3 * id.index + 1], body_pos[3 * id.index + 2])
    }
  }

  /** In a well-formed model the unstrided reads never leave their tables, for any body. */
  lemma UnstridedReadsInBounds(m: Model, id: BodyId)
    requires m.WellFormed() && id.index < m.nbody()
    ensures id.index + 1 < |m.body_invweight0| && id.index + 2 < |m.body_pos|
  {
  }

  /** As written, consecutive bodies share cells: the y of one body is the x of the next. */
  lemma UnstridedReadsOverlap(m: Model, i: nat)
    requires m.WellFormed() && i + 1 < m.nbody()
    ensures m.BodyPos(ObjectId(i)).1 == m.BodyPos(ObjectId(i + 1)).0
    ensures m.BodyInvweight0(ObjectId(i)).1 == m.BodyInvweight0(ObjectId(i + 1)).0
  {
  }

  /** A two-body model whose body positions are (0, 1, 2) and (3, 4, 5). */
  function TwoBodies(): (m: Model)
    ensures m.WellFormed() && m.nbody() == 2
  {
    Model(0, 0, 0, 0, 0, 0, 0, 0, 0, 0, 0, [], [], [], [], [], [],
          [0, 0], [0, 0], [None, None], [1.0, 1.0, 0.5, 0.5], [0.0, 1.0, 2.0, 3.0, 4.0, 5.0])
  }

  /** On that model the unstrided read of body 1 returns (1, 2, 3), not its row (3, 4, 5). */
  lemma BodyPosCounterexample()
    ensures TwoBodies().BodyPos(ObjectId(1)) == (1.0, 2.0, 3.0)
    ensures TwoBodies().BodyPosRow(ObjectId(1)) == (3.0, 4.0, 5.0)
    ensures TwoBodies().BodyInvweight0(ObjectId(1)) == (1.0, 0.5)
    ensures TwoBodies().BodyInvweight0Row(ObjectId(1)) == (0.5, 0.5)
  {
  }

  /** The flat index of coordinate `k` of row `b` in a row-major table of the given width. */
  function Cell(b: nat, k: nat, width: nat): nat {
    width * b + k
  }

  /**
   * With the stride, every cell of the two tables is the coordinate of exactly
   * one body: cell `c` is coordinate `c % 3` (resp. `c % 2`) of body `c / 3`
   * (resp. `c / 2`).
   */
  lemma RowsCoverTables(m: Model, c: nat)
    requires m.WellFormed() && c < |m.body_pos|
    ensures c / 3 < m.nbody()
    ensures var r := m.BodyPosRow(ObjectId(c / 3));
      m.body_pos[c] == (if c % 3 == 0 then r.0 else if c % 3 == 1 then r.1 else r.2)
    ensures c < |m.body_invweight0| ==> c / 2 < m.nbody()
    ensures c < |m.body_invweight0| ==> var w := m.BodyInvweight0Row(ObjectId(c / 2));
      m.body_invweight0[c] == (if c % 2 == 0 then w.0 else w.1)
    ensures forall b: nat, k: nat :: b < m.nbody() && k < 3 && c == Cell(b, k, 3) ==> b == c / 3 && k == c % 3
    ensures forall b: nat, k: nat :: b < m.nbody() && k < 2 && c == Cell(b, k, 2) ==> b == c / 2 && k == c % 2
  {
  }
}
