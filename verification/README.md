# Face-driven avatar retargeting rule, modelled in Dafny

The avatar component of this browser VTuber app (`VroidAvatar` in
`src/App.tsx`) runs one rule per rendered frame. It takes the latest solved
face rig, the latest list of blendshape scores and the user's selected
expression. It then does three things:

- it clamps the head estimate into a safe range of ±0.4 rad per axis,
  flipping the x axis first, to get the head target angles;
- it thresholds the two eye-blink scores into binary blink weights;
- it writes those weights, plus a one-hot mouth expression, into the
  morph-target influence array of every skinned mesh in the scene.

This project models that rule as pure functions:

- `Clamp`: the `remap` helper.
- `HeadPose`: the head target Euler triple.
- `Blendshapes`: the score lookup by category name and the blink threshold.
- `Expressions`: the six expression names, the `Fcl_MTH_<name>` channel
  names and the expression buttons.
- `MeshUpdate`: the per-mesh morph writes. They are replayed in the source's
  order, so the later write wins when two keys share an index. This module
  also has an imperative mirror proved equal to the functional update.
- `MeshProperties`: the one-hot, blink, frame, independence and idempotence
  properties of the mesh update.
- `Frame`: the whole per-frame rule (the rig guard, the blendshape guard and
  the scene walk) and frame-level idempotence.
- `FrameScenarios`: an end-to-end frame on a face mesh with all eight
  channels.

A mesh is its morph dictionary (`map<string, nat>`, name to index) plus its
influences (`seq<real>`). The model requires every dictionary index to
address an influence: the rendering library builds the morph dictionary and
the influence array of a mesh together, so their indices agree. Numbers are
reals.

With no rig the frame returns at `src/App.tsx:66` before the morph block,
so no blink or expression weight is written either, even when blendshape
scores are present (`Frame.RunFrame`).

## Model

| member | source | states |
|---|---|---|
| Clamp.Remap | src/App.tsx:13-15 | for `lo <= hi` the result lies in `[lo, hi]`; it equals the input inside the interval, `lo` below it and `hi` above it; for `hi < lo` it is always `lo` |
| Clamp.RemapIsNearestPoint | src/App.tsx:13-15 | the clamped value is the point of `[lo, hi]` nearest to the input |
| Clamp.RemapMonotone | src/App.tsx:13-15 | clamping preserves the order of inputs |
| Clamp.RemapIdempotent | src/App.tsx:13-15 | clamping twice is the same as clamping once |
| HeadPose.HeadTarget | src/App.tsx:69 | each of the three target angles lies in `[-0.4, 0.4]`; inside the range the first is the negated raw x and the others are the raw y and z |
| HeadPose.HeadTargetSaturates | src/App.tsx:69 | an axis beyond the limit saturates at the bound on its own side (after x is negated) |
| HeadPose.HeadTargetFarOutside | src/App.tsx:69 | the estimate `(10, 10, 10)` gives the target `(-0.4, 0.4, 0.4)` |
| Blendshapes.Find | src/App.tsx:76-77 | the lookup finds nothing exactly when no entry has the name; otherwise it returns the first entry with that name |
| Blendshapes.Score | src/App.tsx:76-77 | the score is that of the first entry with the name, or 0 when no entry has it |
| Blendshapes.FindScore | src/App.tsx:76-77 | a front-to-back scan that stops at the first match computes the same score |
| Blendshapes.BlinkWeight | src/App.tsx:80-96 | a blink weight is exactly 0 or 1, and it is 1 if and only if the score is strictly above 0.4 (so 0.4 gives 0) |
| Blendshapes.MissingCategoryKeepsEyeOpen | src/App.tsx:76-96 | a category missing from the list gives blink weight 0 |
| Expressions.ExpressionListDistinct | src/App.tsx:18 | the `expressions` list holds six pairwise distinct names starting with the initial `Neutral`, and their `Fcl_MTH_` channel names are pairwise distinct |
| Expressions.MouthKey | src/App.tsx:100-106 | a channel name is the prefix `Fcl_MTH_` followed by exactly the expression name, so the name can be read back from the key |
| Expressions.MouthKeyInjective | src/App.tsx:100-106 | different expression names give different `Fcl_MTH_` channel names |
| Expressions.ExactlyOneActiveButton | src/App.tsx:241-242 | a listed expression appears at exactly one position of the list, so exactly one button is marked active |
| Expressions.Replay | src/App.tsx:241-242 | after button presses the selection is the name of the last button pressed, or the old selection if none was pressed; a listed selection stays listed |
| Expressions.SelectionAfter | src/App.tsx:136 | the selection starts as `Neutral` and is always one of the six listed names |
| MeshUpdate.SetIfPresent | src/App.tsx:90-96 | a write through a key changes only the index the key names, and only when the key is present |
| MeshUpdate.ResetExpressions | src/App.tsx:99-104 | every present channel of the listed expressions ends at 0; every other index keeps its value |
| MeshUpdate.UpdateInfluences | src/App.tsx:86-109 | the sequence of writes matches the last-write-wins table: each index holds the value of the last present key naming it (selected expression, then listed expressions, then right eye, then left eye), or its old value if no present key names it |
| MeshUpdate.UpdateMesh | src/App.tsx:84-110 | the dictionary is unchanged; untouched indices keep their values; every touched index ends at 0 or 1; the selected channel, when present, ends at 1 |
| MeshUpdate.UpdateMeshStepwise | src/App.tsx:84-110 | the statement-by-statement form with the reset `for` loop computes the same influences as the functional update |
| MeshProperties.ExpressionOneHot | src/App.tsx:98-109 | the selected channel is 1, and every listed expression channel at another index is 0, whatever the prior weights |
| MeshProperties.ExactlyOneExpressionChannel | src/App.tsx:98-109 | with all six channels present at distinct indices, only the selected one is 1 and the other five are 0 |
| MeshProperties.BlinkChannels | src/App.tsx:86-96 | a blink channel whose index no later write reuses ends at the thresholded score of its eye |
| MeshProperties.UpdateIgnoresPriorWeights | src/App.tsx:86-109 | meshes that differ only in prior weights agree on every written index after the update |
| MeshProperties.UpdateIdempotent | src/App.tsx:82-111 | running the mesh update twice with the same inputs is the same as running it once |
| Frame.UpdateObject | src/App.tsx:82-84 | only skinned meshes with a morph dictionary are updated; other objects are unchanged |
| Frame.Traverse | src/App.tsx:82-111 | the scene walk updates every object independently and keeps the scene's shape |
| Frame.RunFrame | src/App.tsx:65-113 | with no rig the frame changes nothing; with a rig the head target is the clamped estimate; with no blendshapes no influence changes; otherwise every object gets the mesh update using the first-match eye scores |
| Frame.FrameIdempotent | src/App.tsx:65-113 | a second frame on its own output with the same inputs reproduces the head target and every morph influence |
| FrameScenarios.FrameScenario | src/App.tsx:65-111 | for head `(0, 0.5, 0)`, `Joy`, left eye 0.9 and right eye 0.1: the target is `(0, 0.4, 0)`, left is 1, right is 0, `Joy` is 1 and the other expression channels are 0 |

## Left out

- Quaternion construction from the Euler triple and the `slerp` of the head (factor 0.6) and neck (factor 0.4) joints (`src/App.tsx:70-72`): floating-point rotation math done by the rendering library. The model stops at the target angles.
- Floating point: numbers are reals, so NaN, `-0` and rounding are not modelled. Because of this, the `|| 0` after the score lookup only matters for a missing entry: a found score of 0 gives 0 either way.
- Writes to an index at or beyond the length of the influence array: in the source such a write does not fail but silently grows the array. The model excludes it by requiring every dictionary index to address an influence, because the rendering library builds the dictionary and the influence array together. The non-null assertions at `src/App.tsx:91`, `:102` and `:108` only assert that the influence array exists.
- The scene graph is a flat list of objects in traversal order. The tree shape does not matter because every object is updated on its own.
- Loading the avatar model, material and frustum settings, and the fixed arm pose (`src/App.tsx:22-63`): scene-graph side effects with no logic of their own.
- Face-landmark inference setup, per-video-frame detection, face solving and the `requestAnimationFrame` polling loop (`src/App.tsx:140-203`): network, WebAssembly and machine-learning calls. The model takes their output (`rig` and the blendshape list) as parameters.
- Webcam capture (`src/App.tsx:160-173`): browser I/O.
- React state and hooks, the physics body and collider, and the overlay markup with its static chat text (`src/App.tsx:115-124`, `:205-268`): UI and library wrappers. Only the expression buttons are modelled, as `Expressions.Replay`.
- `src/main.tsx` (application bootstrap) and `src/kalidokit.d.ts` (an ambient type declaration): no logic.
