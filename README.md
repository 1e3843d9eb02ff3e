# oxide_control accessor layer and the acrobot Q-learning example, in Dafny

This project models two parts of the `oxide_control` crate:

- The kind-checked accessor layer over MuJoCo's runtime buffers. A `Physics` owns a static model and the flat `mjData` buffers. Callers read and write per-joint slices of `qpos`/`qvel` through their joint kind (Free, Ball, Hinge, Slide). They read and write per-actuator, per-plugin, per-body and per-mocap cells through typed object handles.
- The acrobot Q-learning example built on that layer:
  - digitizing an observation into buckets and one flat Q-table state index, using `linspace` and `digitize`;
  - the ladder of discretized shoulder torques;
  - the index plumbing between the agent and its Q-table;
  - the two reward functions: the stand-alone program's quadratic pendulum reward and the training binary's shaped reward.

Modules, by source file:

| module | models |
|---|---|
| `Wrappers` | `Option` and `Result` |
| `ObjectIds` | `ObjectId<O>`: a handle per object category, kept apart by a phantom type parameter |
| `Joint` | the joint kinds and their `QPOS_SIZE`/`QVEL_SIZE` |
| `Model` | which `mjModel` tables the layer reads, and the indexed reads of `src/physics/model.rs` |
| `Physics` | `src/physics.rs`. The class `Physics` has one array per `mjData` buffer. Reading functions and modifying methods state the whole new state through the ghost snapshot `State()`. |
| `Np` | `linspace`, `digitize` (a loop over the bins, proved against the recursive `BinIndex`), `clamp`, and the bucketing both balance tasks share |
| `AcrobotCommon` | the acrobot physics with its handles, the observation, and the mixed-radix encoding with its bound and injectivity |
| `AcrobotLib` | `examples/acrobot-qtable/src/lib.rs` |
| `AcrobotMain` | `examples/acrobot-qtable/src/main.rs` |
| `Train` | the reward and table sizing of `examples/acrobot-qtable/src/bin/train.rs` |

Modelling choices:

- `f64` is modelled as `real`, and `usize` as `nat`.
- A panic in the source (`unwrap`, `expect`, `assert!`, out-of-range slicing, the sortedness check of `digitize`, `clamp` with crossed bounds) is a `requires`.
- An `Err` return is a `Result`, and a `None` return an `Option`.
- Randomness is a parameter, constrained to the range the source draws from. So is the strategy's choice of Q-table action.

Behaviour of the code worth knowing:

- The error variants follow those `physics.rs` constructs: `JointTypeNotMatch`, `ActuatorStateless`, `PluginStateless`, `BodyNotMocap`.
- `digitize` returns `bins.len() - 1` for a value at or above the last edge. With `d - 1` interior edges, the top bucket `d - 1` is therefore never produced. Bucket indices stay at most `max(d - 2, 0)`.
- `main.rs` puts the arm velocity before the arm angle in its flat index. `lib.rs` uses pendulum angle, pendulum velocity, arm angle, arm velocity.

## Model

| member | source | states |
|---|---|---|
| Joint.QposSize | src/physics.rs:126-162 | Free 7, Ball 4, Hinge 1, Slide 1 cells of `qpos`: one more than the velocity size for the quaternion kinds, equal to it otherwise |
| Joint.QvelSize | src/physics.rs:126-162 | Free 6, Ball 3, Hinge and Slide 1 cells of `qvel` (each size identifies its kinds) |
| Model.Model.BodyParentId | src/physics/model.rs:8-10 | the handle stored at `body_parentid[id]`, a valid body in a well-formed model |
| Model.Model.BodyRootId | src/physics/model.rs:12-14 | the handle stored at `body_rootid[id]`, a valid body in a well-formed model |
| Model.Model.BodyInvweight0 | src/physics/model.rs:23-25 | as written: the cells `i` and `i + 1` with no stride, needing `i + 1 < len` |
| Model.Model.BodyPos | src/physics/model.rs:29-35 | as written: the cells `i`, `i + 1`, `i + 2` with no stride, needing `i + 2 < len` |
| Model.UnstridedReadsInBounds | src/physics/model.rs:23-35 | in a well-formed model the unstrided reads never go out of bounds for a valid body |
| Model.UnstridedReadsOverlap | src/physics/model.rs:23-35 | the unstrided reads of neighbouring bodies share a cell: `body_pos(i).1 == body_pos(i + 1).0`, and likewise for `body_invweight0` |
| Model.BodyPosCounterexample | src/physics/model.rs:23-35 | on a two-body model the unstrided reads of body 1 differ from its rows |
| Model.Model.BodyInvweight0Row | src/physics/model.rs:23-25 | corrected: row `id` of the `nbody x 2` table, cells `2 id` and `2 id + 1` |
| Model.Model.BodyPosRow | src/physics/model.rs:29-35 | corrected: row `id` of the `nbody x 3` table, cells `3 id` to `3 id + 2` |
| Model.RowsCoverTables | src/physics/model.rs:23-35 | with the stride, cell `c` is coordinate `c % 3` (resp. `c % 2`) of body `c / 3` (resp. `c / 2`), and no other body and coordinate name that cell |
| Physics.Splice | src/physics.rs:211-213 | `copy_from_slice` into `s[at..at + len]`: same length, that window replaced, every other cell unchanged |
| Physics.SpliceKeepsDisjoint | src/physics.rs:211-213 | a window disjoint from the written one reads the same after the write |
| Physics.CopyFromSlice | src/physics.rs:213 | the element-wise copy loop leaves the array equal to `Splice` of its old contents |
| Physics.Physics.ObjectCountOf | src/physics.rs:77-89 | the count for bodies, joints, geoms, sites, cameras, lights, tendons and actuators (`nu`), and 0 for every other category |
| Physics.Physics.Time | src/physics.rs:166-168 | the simulation time; `SetTime` states its read-back through it |
| Physics.Physics.SetTime | src/physics.rs:166-171 | sets the simulation time and nothing else; `time()` reads it back |
| Physics.Physics.Ctrl | src/physics.rs:173-176 | cell `id` of `ctrl`, for an actuator below `nu`; `SetCtrl` states its read-back through it |
| Physics.Physics.SetCtrl | src/physics.rs:173-180 | writes `ctrl[id]`, without clamping to the control range, and nothing else; `ctrl(id)` reads it back |
| Physics.Actuators.Set | src/physics.rs:104-107 | the same single-cell control write, through the actuator view |
| Physics.Physics.Act | src/physics.rs:182-187 | `None` exactly for an actuator without activation state; otherwise the cell at its `actuator_actadr` |
| Physics.Physics.SetAct | src/physics.rs:188-194 | `ActuatorStateless(id)` with no change exactly when there is no address; otherwise writes that one cell, and `act` returns it |
| Physics.Physics.Qpos | src/physics.rs:196-206 | `JointTypeNotMatch{expected, found}` exactly on a kind mismatch; otherwise the `QPOS_SIZE` cells from `jnt_qposadr[id]` |
| Physics.Physics.SetQpos | src/physics.rs:207-218 | on a mismatch the error and no change; otherwise exactly that joint's slice is overwritten, it reads back, and every other joint reads as before |
| Physics.Physics.Qvel | src/physics.rs:220-230 | like `Qpos` over `qvel` at `jnt_dofadr[id]`; on a kind match the address must exist (the source's `expect`) |
| Physics.Physics.SetQvel | src/physics.rs:231-243 | on a mismatch the error and no change; on a match without a dof address `Ok` with no change; otherwise that slice only is written, reads back, and other joints are unaffected |
| Physics.Physics.QaccWarmstart | src/physics.rs:245-249 | cell `id` of `qacc_warmstart`, for a dof below `nv`; `SetQaccWarmstart` states its read-back through it |
| Physics.Physics.SetQaccWarmstart | src/physics.rs:245-254 | writes one dof's warm-start acceleration and nothing else; the getter reads it back |
| Physics.Physics.PluginState | src/physics.rs:256-261 | `None` exactly for a plugin without state; otherwise the cell at its `plugin_stateadr` |
| Physics.Physics.SetPluginState | src/physics.rs:262-268 | `PluginStateless(id)` with no change exactly when there is no address; otherwise that one cell, read back by `plugin_state` |
| Physics.Physics.QfrcApplied | src/physics.rs:270-274 | cell `id` of `qfrc_applied`, for a dof below `nv`; `SetQfrcApplied` states its read-back through it |
| Physics.Physics.SetQfrcApplied | src/physics.rs:270-279 | writes one dof's applied force and nothing else; the getter reads it back |
| Physics.Physics.XfrcApplied | src/physics.rs:281-286 | the six cells starting at `6 id` |
| Physics.Physics.SetXfrcApplied | src/physics.rs:287-292 | overwrites exactly those six cells; they read back, and every other body's six read as before |
| Physics.Physics.EqActive | src/physics.rs:294-298 | flag `id` of `eq_active`, for a constraint below `neq`; `SetEqActive` states its read-back through it |
| Physics.Physics.SetEqActive | src/physics.rs:294-303 | writes one equality constraint's flag and nothing else; the getter reads it back |
| Physics.Physics.MocapPos | src/physics.rs:305-311 | `None` exactly for a body with no mocap id; otherwise the three cells at `3 mocapid` |
| Physics.Physics.SetMocapPos | src/physics.rs:312-319 | `BodyNotMocap(id)` with no change for a non-mocap body; otherwise exactly those three cells, read back by `mocap_pos` |
| Physics.Physics.MocapQuat | src/physics.rs:321-327 | `None` exactly for a body with no mocap id; otherwise the four cells at `4 mocapid` |
| Physics.Physics.SetMocapQuat | src/physics.rs:328-335 | `BodyNotMocap(id)` with no change for a non-mocap body; otherwise exactly those four cells, read back by `mocap_quat` |
| Np.Linspace | examples/acrobot-qtable/src/np.rs:1-7 | `n` points (none for `n == 0`); `n == 1` is excluded |
| Np.LinspaceAt | examples/acrobot-qtable/src/np.rs:5-6 | point `i` is `start + i (end - start) / (n - 1)` |
| Np.LinspaceEnds | examples/acrobot-qtable/src/np.rs:5-6 | the first point is `start` and the last is exactly `end` |
| Np.LinspaceMonotone | examples/acrobot-qtable/src/np.rs:5-6 | non-decreasing for `start <= end`, strictly increasing for `start < end`, strictly decreasing for `end < start` |
| Np.LinspaceWithin | examples/acrobot-qtable/src/np.rs:5-6 | for `start <= end` every point lies in `[start, end]` |
| Np.IsSorted | examples/acrobot-qtable/src/np.rs:10 | `is_sorted`: every neighbouring pair is in order; `SortedPairwise` extends it to every pair |
| Np.SortedPairwise | examples/acrobot-qtable/src/np.rs:10 | the consecutive-pairs sortedness `is_sorted` checks orders every pair |
| Np.FirstAbove | examples/acrobot-qtable/src/np.rs:16-20 | the first index whose bin exceeds the value, every earlier bin being at most the value |
| Np.BinIndex | examples/acrobot-qtable/src/np.rs:13-21 | 0 for no bins; otherwise at most `len - 1`, above every bin that is at most the value, below a bin exceeding it unless it is the last index, and the last index when no bin exceeds the value |
| Np.Digitize | examples/acrobot-qtable/src/np.rs:9-22 | the early-returning scan panics on unsorted bins and otherwise returns `BinIndex` |
| Np.FirstAboveMonotone | examples/acrobot-qtable/src/np.rs:16-20 | the first bin above grows with the value |
| Np.BinIndexMonotone | examples/acrobot-qtable/src/np.rs:16-21 | `v1 <= v2` implies `digitize(v1) <= digitize(v2)`, for any bins |
| Np.BinIndexAtEdge | examples/acrobot-qtable/src/np.rs:17 | bins are left-closed: a value equal to edge `k` lands above bucket `k` (before the last edge) |
| Np.Clamp | examples/acrobot-qtable/src/lib.rs:115 | `f64::clamp`: the value itself inside `[lo, hi]`, the nearer bound outside |
| Np.Edges | examples/acrobot-qtable/src/lib.rs:114-117 | `linspace(lo, hi, d + 1)[1..d]`: `d - 1` interior edges |
| Np.EdgesSorted | examples/acrobot-qtable/src/lib.rs:114-117 | the edges pass `digitize`'s check exactly when `lo <= hi` or `d <= 2` |
| Np.Bucket | examples/acrobot-qtable/src/lib.rs:114-117 | the bucket is `BinIndex` over the edges and is at most `max(d - 2, 0)`, so below `d` |
| AcrobotCommon.Encode4 | examples/acrobot-qtable/src/lib.rs:119 | the four-digit mixed-radix index, in Horner form; `Encode4Expanded`, `Encode4Bound` and `Encode4Injective` state what it computes |
| AcrobotCommon.Encode4Expanded | examples/acrobot-qtable/src/lib.rs:119 | the index in Horner form equals the sum of place values the source writes out |
| AcrobotCommon.Encode4Bound | examples/acrobot-qtable/src/lib.rs:119 | digits below their radices give an index below the product of the radices |
| AcrobotCommon.Encode4Injective | examples/acrobot-qtable/src/lib.rs:119 | digits below their radices are determined by the index |
| AcrobotLib.State | examples/acrobot-qtable/src/lib.rs:106-128 | shoulder angle bucketed over ±0.9π, elbow angle over ±0.2π, both velocities clamped to [-8, 8] and bucketed over it; every bucket at most `max(d - 2, 0)`; the index is `pend_rad + pend_vel dp + arm_rad dp² + arm_vel dp² da`, below `dp² da²` |
| AcrobotLib.StateIndexInjective | examples/acrobot-qtable/src/lib.rs:119 | two observations share an index exactly when they share all four buckets |
| AcrobotLib.ShouldFinish | examples/acrobot-qtable/src/lib.rs:130-138 | true exactly when an angle bucket is 0 or at least its digitization |
| AcrobotLib.TaskShouldFinish | examples/acrobot-qtable/src/lib.rs:157-160 | on a digitized observation: exactly when the arm or pendulum angle bucket is 0 |
| AcrobotLib.BucketZero | examples/acrobot-qtable/src/lib.rs:114-117 | with at least three bins a bucket is 0 exactly when the value is below the first edge |
| AcrobotLib.CoarseDigitizationAlwaysFinishes | examples/acrobot-qtable/src/lib.rs:130-138 | with at most two bins on an angle axis every episode ends immediately |
| AcrobotLib.Discount | examples/acrobot-qtable/src/lib.rs:145-147 | the constant 0.99, a proper discount factor in (0, 1) |
| AcrobotLib.InitEpisode | examples/acrobot-qtable/src/lib.rs:149-155 | both hinges' angle and velocity are set to the drawn values in [-0.1, 0.1); all four writes succeed, and nothing else changes |
| AcrobotLib.Apply | examples/acrobot-qtable/src/lib.rs:191-195 | demands a torque in [-1, 1], then writes it as the actuator's control and changes nothing else |
| AcrobotLib.SerializeActuatorId | examples/acrobot-qtable/src/lib.rs:179-181 | the handle's index as a `u64` |
| AcrobotLib.DeserializeActuatorId | examples/acrobot-qtable/src/lib.rs:183-186 | any `u64` becomes the handle with that index, unchecked |
| AcrobotLib.ActuatorIdRoundTrip | examples/acrobot-qtable/src/lib.rs:179-186 | serialization and deserialization are inverse both ways |
| AcrobotLib.LadderRange | examples/acrobot-qtable/src/lib.rs:215-218 | the declared range, or `mjMINVAL..mjMAXVAL` when it is `0..0` |
| AcrobotLib.MakeDigitizedActions | examples/acrobot-qtable/src/lib.rs:214-229 | `action_size` actions; action `i` has the actuator, index `i` and point `i` of `linspace` over the ladder range |
| AcrobotLib.LadderEnds | examples/acrobot-qtable/src/lib.rs:219 | the first rung is the range's start and the last its end |
| AcrobotLib.LadderWithinRange | examples/acrobot-qtable/src/lib.rs:219 | over an ordered range every rung lies in it, and rungs strictly increase over a proper range |
| AcrobotLib.DeclaredUnitRangeLadderApplies | examples/acrobot-qtable/src/lib.rs:191-195 | a declared range inside [-1, 1] yields only actions `apply` accepts |
| AcrobotLib.FallbackLadderTopRungPanics | examples/acrobot-qtable/src/lib.rs:216-219 | with the `0..0` fallback the top rung is `mjMAXVAL`, which `apply`'s assertion rejects |
| AcrobotLib.NewAgent | examples/acrobot-qtable/src/lib.rs:231-246 | a Q-table of the configured shape and hyper-parameters, the ladder of actions, and the balance task's digitizations; rung `i` carries index `i` |
| AcrobotLib.GetAction | examples/acrobot-qtable/src/lib.rs:248-252 | the rung for the chosen Q-table action; on a consistent agent its index is the choice |
| AcrobotLib.Learn | examples/acrobot-qtable/src/lib.rs:254-261 | the update names the state, action and next-state cells, each checked against the table's shape |
| AcrobotLib.LearnChosenAction | examples/acrobot-qtable/src/lib.rs:248-261 | an action the agent chose can be learnt from, and the update lands on the chosen cell |
| AcrobotLib.ActionSize | examples/acrobot-qtable/src/lib.rs:288-290 | the number of rungs, the table's action count for a consistent agent |
| AcrobotLib.NewAgentActionSize | examples/acrobot-qtable/src/lib.rs:231-246 | a fresh agent reports the configured action size |
| AcrobotMain.State | examples/acrobot-qtable/src/main.rs:94-124 | raw values kept; angles bucketed over the configured limits, velocities clamped and bucketed over [-8, 8]; buckets below `d`; the index is `pend_rad + pend_vel dp + arm_vel dp² + arm_rad dp² da`, below `dp² da²` |
| AcrobotMain.StateIndexInjective | examples/acrobot-qtable/src/main.rs:107-111 | two observations share an index exactly when they share all four buckets |
| AcrobotMain.ShouldFinishEpisode | examples/acrobot-qtable/src/main.rs:143-152 | never true: a bucket always lies in `0..=d` |
| AcrobotMain.GoodBandInRange | examples/acrobot-qtable/src/main.rs:161-163 | for `n >= 1` the good band's lower end does not underflow and its upper end is below `n` |
| AcrobotMain.GoodBand | examples/acrobot-qtable/src/main.rs:189-190 | for `n >= 4` the coefficient's denominator `best² - gn gx` is the squared half-width, at least 1 |
| AcrobotMain.PendulumReward | examples/acrobot-qtable/src/main.rs:186-195 | `-a x² + b x + c` with `a = 1 / (best² - gn gx)`, `b = a (gn + gx)`, `c = -a gn gx`; `PendulumRewardFactored` and `PendulumRewardShape` state its shape |
| AcrobotMain.PendulumRewardFactored | examples/acrobot-qtable/src/main.rs:189-195 | `-a x² + b x + c` equals `-(x - gn)(x - gx) / q²` |
| AcrobotMain.PendulumRewardShape | examples/acrobot-qtable/src/main.rs:166-195 | 1 at `best`, 0 at `good_min` and `good_max`, positive strictly between, negative outside, never above 1 |
| AcrobotMain.GetReward | examples/acrobot-qtable/src/main.rs:154-196 | -10 on a finished episode, which never happens, so always the pendulum reward of the pendulum bucket, at most 1 |
| AcrobotMain.InitEpisode | examples/acrobot-qtable/src/main.rs:136-141 | elbow angle set to the drawn value (±π/2 when swinging, ±π/10 otherwise), shoulder angle to 0, velocities and everything else untouched |
| AcrobotMain.Discount | examples/acrobot-qtable/src/main.rs:132-134 | the configured factor |
| AcrobotMain.Apply | examples/acrobot-qtable/src/main.rs:214-216 | writes the torque as the actuator's control with no range check |
| Train.Abs | examples/acrobot-qtable/src/bin/train.rs:17-20 | `f64::abs`: never negative, and the value itself or its negation |
| Train.NearCentre | examples/acrobot-qtable/src/bin/train.rs:17-21 | all four buckets within 1 of their centre `d / 2`; on an unfinished episode `GetReward` returns 500 exactly then |
| Train.SquaredError | examples/acrobot-qtable/src/bin/train.rs:27-34 | a bucket's squared distance from the centre is never negative, and zero exactly on the centre |
| Train.PositionReward | examples/acrobot-qtable/src/bin/train.rs:25-30 | at most 10, with equality exactly when both angle buckets sit on their centres |
| Train.VelocityPenalty | examples/acrobot-qtable/src/bin/train.rs:32-36 | never negative, zero exactly when both velocity buckets sit on their centres |
| Train.OffCentreSquare | examples/acrobot-qtable/src/bin/train.rs:27-34 | `(d/2 - n)²` is `(d - 2n)²/4`: never negative, zero exactly on the centre |
| Train.ActionCost | examples/acrobot-qtable/src/bin/train.rs:41-44 | needs one action; never negative, zero exactly on the middle rung `(size - 1)/2` |
| Train.ActionCostMonotone | examples/acrobot-qtable/src/bin/train.rs:41-44 | a rung nearer the middle costs less |
| Train.EvenActionSizeAlwaysCosts | examples/acrobot-qtable/src/bin/train.rs:38-44 | with an even action count every action costs something |
| Train.OddActionSizeMiddleIsFree | examples/acrobot-qtable/src/bin/train.rs:38-44 | with an odd action count the middle rung costs nothing |
| Train.GetReward | examples/acrobot-qtable/src/bin/train.rs:7-47 | -2000 on a finished episode; 500 when all four buckets are within 1 of their centre; otherwise position reward less velocity penalty and action cost, strictly below 10 |
| Train.GetRewardPrefersMiddleAction | examples/acrobot-qtable/src/bin/train.rs:41-46 | outside the fixed cases, the rung nearer the middle earns more in the same state |
| Train.ObservationReward | examples/acrobot-qtable/src/lib.rs:162-165 | the library's reward with this function plugged in: -2000 on a finished episode, else 500 or below 10 |
| Train.StateSize | examples/acrobot-qtable/src/bin/train.rs:96 | `n_arm² n_pendulum²`, positive for positive digitizations |
| Train.StateSizeIsStateCount | examples/acrobot-qtable/src/bin/train.rs:96 | the table size equals the number of indices the library's encoding can produce |
| Train.TrainingConfig | examples/acrobot-qtable/src/bin/train.rs:93-99 | the task's action size, a table of exactly as many states as the library's encoding can produce, `alpha` 0.1 and `epsilon` 0.5 |
| Train.TrainingIndicesFit | examples/acrobot-qtable/src/bin/train.rs:93-101 | with that table no `unwrap` in `get_action` or `learn` fails, and updates land on the chosen rung |

## Left out

- Engine calls (`from_xml`, `from_xml_string`, `step`, `forward`, `reset`): foreign MuJoCo code. `Physics.Physics.constructor` stands for a loaded model and its initial data.
- `object_id_of` and `object_name_of`: foreign name lookups. The acrobot's handles are parameters of its constructor, and `AcrobotAction::new` in `main.rs` is not modelled.
- `Orientation::from_rad`/`to_rad` and `Observation::generate`: sin, cos and `atan2`. The observation carries the recovered angles.
- Floating point: values are exact reals. Rounding, NaN and infinity are not modelled. This covers the NaN torque assertion, the NaN `ctrlrange` check, and `linspace(_, _, 1)`, which the model excludes.
- AcrobotMain.GetReward: requires at least four pendulum buckets. With fewer, the `f64` coefficient is infinite and the reward NaN.
- The `qtable` crate: the update rule, the strategies and `decay_*_with_rate` are external. `GetAction` takes the strategy's choice as a parameter, and `Learn` returns the update it hands to the table instead of mutating the table.
- `main.rs`'s `Agent` and its `learn`: unused by that program.
- `TrainedAgent::get_action` is `GetAction` with the greedy strategy's choice. `TrainedAgent::new`, its digitization getters and the `Acrobot` handle getters are plain field reads, and the `Deref` impls are the `physics` field.
- `QTableAgent::save`/`load` and `TrainedAgent::load`: file I/O and JSON.
- `np::random` and `rand::Rng::random_range`: the drawn values are parameters, constrained to the half-open ranges.
- `bin/simulate.rs` and `main` of `bin/train.rs`: windowing, environment variables, printing and the training loop.
- `src/environment.rs`, `src/error.rs`, `src/mujoco.rs` and `src/lib.rs`: declarations, display strings, duplicated lookups and re-exports.
- `Physics::model()`/`data()` accessors: their fields are read directly.
- `usize` arithmetic is unbounded here. Overflow of the state index or of `id * 6` is not modelled.

## Findings

| source | as written | input that shows it | evidently intended | confidence | as-written member | corrected member |
|---|---|---|---|---|---|---|
| src/physics/model.rs:29-35 | `body_pos` reads `body_pos[i]`, `[i + 1]`, `[i + 2]` for body `i` | body 1 of a two-body model with positions (0, 1, 2) and (3, 4, 5) reads (1, 2, 3) | row `i` of the `nbody x 3` table, cells `3i` to `3i + 2` | not executed | Model.BodyPosCounterexample | Model.RowsCoverTables |
| src/physics/model.rs:23-25 | `body_invweight0` reads `[i]` and `[i + 1]` for body `i` | body 1 of a two-body model with rows (1, 1) and (0.5, 0.5) reads (1, 0.5) | row `i` of the `nbody x 2` table, cells `2i` and `2i + 1` | not executed | Model.UnstridedReadsOverlap | Model.Model.BodyInvweight0Row |
