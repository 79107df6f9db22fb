# Sticker demo: drag and settle, in Dafny

The sticker demo is a React / three.js scene. Fifty emoji stickers lie on a
dark floor. The user picks one up with the mouse, and it follows the pointer
on a damped spring, leaning into its motion. On release it settles back onto
the floor where it was dropped. This project models the interaction core of
`src/App.tsx`:

- the `Sticker` component's per-frame callback: the spring while dragging, the
  5% relaxation toward the rest pose otherwise;
- its window `mousemove` / `mousedown` / `mouseup` handlers, including the
  pointer normalisation and velocity bookkeeping;
- the parent `Component`'s list of sticker records, with ids `index + 1` and
  the `updatePosition` write-back.

Numbers are exact `real`s. `Math.PI` is a constant no proof depends on. Ray
casts are inputs: whether the press ray hit the sticker, and where, if
anywhere, the move ray hit the floor.

Modules, by file:

- `Options` and `Vectors` (`vectors.dfy`): an option type, the three.js
  vector operations used (`subVectors`, `add`, `multiplyScalar`, `Vector3.lerp`,
  `MathUtils.lerp`), and powers with the inequalities the convergence proofs
  need.
- `Motion` (`motion.dfy`): the two integrators with their constants, stability
  of the spring (an energy that shrinks by exactly a quarter every frame), and
  geometric convergence of the rest step.
- `Pointer` (`pointer.dfy`): pixels to normalised device coordinates, and the
  pointer-velocity cells.
- `Stickers` (`stickers.dfy`): the parent's records, their creation and
  `updatePosition`.
- `Drag` (`drag.dfy`): one sticker's live state, its event handlers, its frame
  callback and event sequences.
- `Session` (`session.dfy`): how a sticker's frame and the parent's list
  interact, and how window events reach every sticker at once.

Two behaviours of the code are easy to miss:

- **A press does not move the target.** `mousedown` only zeroes the spring
  velocity (src/App.tsx:165-168). Until the first move during a drag reaches
  the floor, the spring pulls toward the previous drag's target, or toward the
  origin on a sticker's first drag. See `Drag.PressedFrameUsesOldTarget` and
  `Drag.FirstDragPullsToOrigin`.
- **More than one sticker can be dragged at once.** Every sticker registers
  its own window listeners and ray-tests only itself (src/App.tsx:162-177). A
  press over overlapping stickers therefore starts several drags, and one
  `mouseup` ends them all. See `Session.OverlappingPressDragsBoth`.

The two lerps are modelled the way three.js writes them. `Vector3.lerp` is
`a + (b - a) * t`; `MathUtils.lerp` is `(1 - t) * x + t * y`.
`Vectors.LerpOffset` and `Vectors.LerpScalarOffset` show that both shrink the
offset from the goal by `1 - t`.

## Model

| member | source | states |
|---|---|---|
| Motion.SpringStep | src/App.tsx:116-123 | one drag frame, stated as a linear map of offset and velocity: `vel' = 0.75 vel - 0.0375 (pos - target)`, `pos' - target = 0.9625 (pos - target) + 0.75 vel`, and the position moves by exactly the new velocity |
| Motion.SpringExample | src/App.tsx:117-123 | from rest at (0,1,0) toward (5,1,0), one frame gives velocity (0.1875,0,0) and position (0.1875,1,0) |
| Motion.AxisFixedPoint | src/App.tsx:118-123 | on one axis, a frame leaves position and velocity unchanged iff the sticker is on its target with zero velocity |
| Motion.SpringFixedPoint | src/App.tsx:117-123 | the spring's only fixed point is "on the target, at rest", in both directions |
| Motion.AxisEnergyContracts | src/App.tsx:118-123 | the quadratic energy `6e² + 34ev + 120v²` of one axis is multiplied by exactly 0.75 by a frame |
| Motion.AxisEnergyBound | src/App.tsx:118-123 | that energy is at least three times `e² + v²`, so it measures distance to the target and speed |
| Motion.SpringEnergyContracts | src/App.tsx:117-123 | a whole spring frame multiplies the energy by 0.75: the drag spring is stable from any state |
| Motion.EnergyBound | src/App.tsx:117-123 | the energy of a state bounds three times the squared offset plus the squared velocity |
| Motion.SpringStepsEnergy | src/App.tsx:111-123 | after `n` frames toward a fixed target, the energy is `0.75^n` times the starting energy |
| Motion.SpringConverges | src/App.tsx:111-123 | after `n` frames toward a fixed target, squared offset plus squared velocity is at most `0.75^n` times a third of the starting energy, so a held sticker converges on its target |
| Motion.Tilt | src/App.tsx:125-128 | a dragged sticker's rotation is its base pose (`BasePose`: the quarter turn `-PI/2` about x plus the record's rotation, src/App.tsx:199) plus `(5 vz, 0, -5 vx)`, and it equals the base pose iff the x and z velocities are zero |
| Motion.RestAnchor | src/App.tsx:132 | an idle sticker aims at its record's x and z, at height 0.01 |
| Motion.RestStep | src/App.tsx:131-139 | one idle frame scales the position's offset from the rest anchor, and the rotation's offset from the base pose `BasePose`, by 0.95 |
| Motion.RestFixedPoint | src/App.tsx:131-139 | an idle frame leaves a pose unchanged iff it is the rest anchor and the base pose |
| Motion.RestStepsGeometric | src/App.tsx:111-139 | after `n` idle frames both offsets are `0.95^n` times the starting ones |
| Motion.RestWithin | src/App.tsx:111-139 | after any `n` idle frames with `0.95^n < eps`, every component of the position and rotation offsets is at most `eps` times its starting size |
| Motion.RestConverges | src/App.tsx:111-139 | such an `n` exists for every `eps > 0`: `n * eps >= 19` gives `0.95^n < eps` and the same bound on both offsets |
| Vectors.LerpOffset | src/App.tsx:134 | `Vector3.lerp` toward a goal with factor `t` scales the offset from the goal by `1 - t` |
| Vectors.LerpScalarOffset | src/App.tsx:136-138 | `MathUtils.lerp` toward a goal with factor `t` scales the offset from the goal by `1 - t` |
| Vectors.PowBelow | src/App.tsx:134-138 | for a per-frame factor `0 < b < 1`, `b^n < eps` once `n * eps * (1 - b) >= b`, the bound behind the rest step's convergence |
| Pointer.Normalize | src/App.tsx:144-145 | pixels inside the window, and only those, map into [-1, 1] on each axis; the left and right edges map to -1 and 1, the top and bottom edges to 1 and -1 |
| Pointer.NormalizeRoundTrip | src/App.tsx:144-145 | the pixel is recovered from its normalised position, so normalising loses nothing |
| Pointer.ToScreenRoundTrip | src/App.tsx:144-145 | every normalised position is the image of a pixel: normalisation is onto |
| Pointer.NormalizeMonotone | src/App.tsx:144-145 | moving right increases x, and moving down decreases y, in both directions |
| Pointer.Track | src/App.tsx:147-150 | after a move to `m`, the remembered position is `m`, and the previous position plus the velocity is `m` |
| Pointer.RepeatedMoveIsStill | src/App.tsx:147-150 | a second move to the same place has velocity zero |
| Pointer.TrackForgetsVelocity | src/App.tsx:147-150 | the new velocity depends only on the previous position, not on the previous velocity |
| Stickers.Create | src/App.tsx:252-258 | the start-up list has one record per attribute draw, and the `i`-th record has id `i + 1` and the `i`-th attributes |
| Stickers.InitialIds | src/App.tsx:251-253 | from 50 attribute draws the scene starts with 50 records, every id lies in 1..50 and every id in 1..50 is present |
| Stickers.IdsDistinct | src/App.tsx:252-253 | index-derived ids are pairwise distinct, in both directions |
| Stickers.UpdatePosition | src/App.tsx:262-268 | everything but positions is kept; a record gets the new position iff its id is the given one, and otherwise keeps its own |
| Stickers.UpdateTouchesOne | src/App.tsx:262-268 | with index-derived ids and an id in 1..N, exactly the record at `id - 1` changes |
| Stickers.UpdateUnknownId | src/App.tsx:262-268 | an id no record has leaves the list unchanged |
| Stickers.UpdateKeepsIds | src/App.tsx:253-268 | updates keep ids equal to index + 1, so that invariant holds all session |
| Stickers.UpdateLastWins | src/App.tsx:262-268 | writing `p` then `q` to one id is writing `q` |
| Stickers.UpdateSamePosition | src/App.tsx:262-268 | writing back a record's own position changes nothing |
| Drag.Mount | src/App.tsx:100-107 | a new sticker is idle, with zero target and spring velocity and both pointer cells at zero; its mesh sits at its record's position in its base pose (src/App.tsx:198-199) |
| Drag.OnMove | src/App.tsx:143-159 | a move always updates the pointer cells; while dragging, a floor hit becomes the target at height 1; otherwise the target is kept; nothing else changes |
| Drag.OnPress | src/App.tsx:162-168 | a hit starts a drag with zero spring velocity and keeps the target; a miss changes nothing |
| Drag.OnRelease | src/App.tsx:171-173 | a release ends the drag whether or not the pointer is over the sticker, and changes nothing else |
| Drag.OnFrame | src/App.tsx:111-140 | a frame writes a position back iff dragging; dragging runs one spring step and tilts by the new velocity, then writes back the new position; idle runs one rest step toward the record and keeps the velocity; the drag flag, target and pointer are unchanged |
| Drag.MovesKeepDragState | src/App.tsx:143-160 | any run of moves keeps the drag flag, spring velocity and pose |
| Drag.IdleMovesKeepTarget | src/App.tsx:152-159 | an idle sticker's target is unchanged by any run of moves |
| Drag.MissedMovesKeepTarget | src/App.tsx:155-158 | moves whose ray misses the floor never change the target |
| Drag.ReleaseThenRest | src/App.tsx:131-139 | after any event sequence ending in a release, the next frame takes the rest branch and writes nothing |
| Drag.RunSplit | src/App.tsx:175-177 | handling the events of `a + b` is handling `a`, then `b` |
| Drag.PressReleaseIdempotent | src/App.tsx:162-173 | a repeated press equals one press, and a repeated release equals one release |
| Drag.PressedFrameUsesOldTarget | src/App.tsx:116-123 | the first frame after a press has velocity `0.0375` times the offset to the old target, because a press keeps the target |
| Drag.FirstDragPullsToOrigin | src/App.tsx:107 | on a first drag, before any move reaches the floor, the sticker at (3, 0.01, 0) moves toward the origin, to x = 2.8875 |
| Drag.MountedAtRestStays | src/App.tsx:131-139 | a freshly mounted sticker already on its rest anchor is unchanged by an idle frame |
| Drag.SettledDragLiesFlat | src/App.tsx:116-130 | a dragged sticker on its target with zero velocity stays there, lies in its base pose and writes the target back |
| Drag.DragTiltUsesNewVelocity | src/App.tsx:120-128 | while dragging, the tilt is five times the velocity this frame computed |
| Session.Commit | src/App.tsx:130 | a frame's write-back changes only positions, and a frame that writes nothing leaves the list unchanged |
| Session.FrameAt | src/App.tsx:111-140 | one frame of the sticker holding record `k` keeps the list's length |
| Session.DragWritesBack | src/App.tsx:130 | after a drag frame, record `k` holds the mesh's new position, every other record is unchanged, and the record's rest anchor is the mesh's x/z |
| Session.ReleaseSettlesWhereDropped | src/App.tsx:130-134 | after a release, the next frame leaves the list alone and closes 5% of the gap to the point where the sticker was dropped |
| Session.IdleFramesAreRestSteps | src/App.tsx:131-139 | idle frames write nothing, stay idle, and are exactly repeated rest steps toward the record |
| Session.DroppedStickerWithin | src/App.tsx:130-139 | after a drag frame and a release, any `n` idle frames with `0.95^n < eps` leave every component of the offset from the drop point at most `eps` times its size at release; the x and z offsets are zero at release, so this bounds only the height |
| Session.DroppedStickerStaysPut | src/App.tsx:130-139 | release does not snap the sticker elsewhere: after a drag frame and a release, idle frames keep its x and z exactly where it was dropped, its height offset above the rest height is `0.95^n` times the one at release, and the list is unchanged |
| Session.DroppedStickerConverges | src/App.tsx:130-139 | after a drag frame and a release, `n` idle frames (with `n * eps >= 19`) leave every component of the offset from the drop point at most `eps` times its size at release |
| Session.PressAll | src/App.tsx:162-168 | a press reaches every sticker, and each one reacts to its own hit test |
| Session.ReleaseAll | src/App.tsx:171-177 | a release reaches every sticker |
| Session.PressAllDragging | src/App.tsx:162-168 | after a press, a sticker is dragging iff it already was or its own ray test hit |
| Session.ReleaseAllEndsEveryDrag | src/App.tsx:171-173 | after a release, no sticker is dragging |
| Session.OverlappingPressDragsBoth | src/App.tsx:162-177 | a press that hits two overlapping stickers starts both drags |

## Left out

- The holographic shader, its uniforms and its clock (src/App.tsx:21-95, 112-114). It is rendering only.
- Emoji textures and materials (src/App.tsx:6-20, 109, 186-190). They are rendering only.
- The scene setup: lights, render order and depth writing. These are rendering only and do not affect positions.
- Ray casting itself, and the camera and 20×20 floor plane the rays are cast from and against (src/App.tsx:153-154, 163, 216, 272). Whether the press ray hits a sticker, and where the move ray meets the floor, are inputs to `Drag.OnPress` and `Drag.OnMove`. The model leaves those inputs unconstrained: a real floor hit has |x| ≤ 10 and |z| ≤ 10, and a move ray that passes beside the plane is the `None` case.
- The random layout: `biasedRandomPosition`, the emoji draw, scale and rotation (src/App.tsx:221-257). The random draws are the `Stickers.Attributes` passed to `Stickers.Create`. The comment on the scale draw says 0.7 to 1.6, but the code draws from [1, 2.5).
- React scheduling. `setIsDragging` and `setStickers` take effect at a later render, and listeners are re-registered when `isDragging` changes (src/App.tsx:184). The model applies each event and each frame immediately and in order, and a frame reads the parent's current record.
- The stale `mouse` vector. `mouse` is rebuilt on every render (src/App.tsx:103), and the listeners close over the copy from the render that registered them (src/App.tsx:184). So right after `isDragging` changes, a press is ray-cast from the screen centre, (0, 0) in normalised coordinates, until the next move (src/App.tsx:162-164). The model is unaffected, because the press hit is an input to `Drag.OnPress`.
- Re-application of the `position` prop to the mesh when the parent re-renders (src/App.tsx:198). While dragging, the prop equals the position just written back. While idle, nothing is written back, so the prop does not change.
- The pointer velocity (`mouseVelocity`). It is computed and kept in `Pointer.PointerState`, but the source never reads it.
- Pointer.Normalize, Drag.OnMove, Drag.ValidEvent: a window of zero width or height is excluded. JavaScript would produce `Infinity` or `NaN`, which have no counterpart among the reals.
- IEEE-754 rounding. All arithmetic is exact real arithmetic, so the contraction and convergence results are stated for the reals.
- Frame timing. `delta` is ignored by the source, so every frame is one step regardless of its duration. The model has no clock.
