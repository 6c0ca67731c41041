# okada-hero geometry core in Dafny

okada-hero turns text outlines into 3-D blocks that scatter and gather on a canvas. This
project models two parts of it:

- **The geometry layer** in `src/utils.ts`:
  - the bounding box of a path list (`getMaxSize`);
  - cutting one shape along a line (`splitShape`), using four okageo primitives;
  - cutting a path list along a grid of 10-unit cells (`splirtGrid`);
  - the position and wall edges that `craeteBlock` records for a block.
- **The bookkeeping of the scene host** `App` in `src/App.ts`:
  - its block list, its live tweens and its `spreaded` toggle;
  - the methods that change them (`createMesh`, `spread`, `clear`, `dispose`);
  - the gating in the per-frame `animate`.

Modules, one per file:

- `Okageo` (`okageo.dfy`):
  - the value types `Vec2`, `SvgPath` and `SvgStyle`;
  - a `Geo` record holding the four okageo primitives as functions. The `Split` and `Grid` operations take the primitives as a parameter, so each proof about them holds whatever the primitives do.
- `Bounds` (`bounds.dfy`): `getMaxSize`.
  - The method keeps the nested `forEach` loops.
  - It is proved equal to a left fold, `MaxSize`.
  - The box is proved to enclose every vertex and to be tight on every side.
- `Split` (`split.dfy`): `splitShape`.
  - There is one method per `forEach` pass: classify, pool, route.
  - They are composed in `SplitShape`, which is proved equal to `Fragments`.
  - Lemmas state how each polygon is routed.
- `Grid` (`grid.dfy`): `splirtGrid`.
  - Two loops over cut indices apply cuts, skipping index 0.
  - Each cut maps every path through `SplitShape` and concatenates the results.
  - The result is proved equal to `GridPieces`.
  - `GridLinesLayout` proves where the cut lines lie.
- `Blocks` (`block.dfy`): the rest position and the walls of `craeteBlock`.
- `Scene` (`app.dfy`): the class `App` with the fields `running`, `blocks`, `tweens` and `spreaded`.
- `Seqs` (`seqs.dfy`) and `Wrappers` (`wrappers.dfy`): an order-keeping filter with its partition lemmas, and `Option`/`Result`.

Conventions:

- **Vertices with no value.** JavaScript's `Infinity` start values in `getMaxSize` become `None`: "no vertex seen yet". A box that is still infinite at the end is `None`.
- **`splirtGrid` with no vertex.** Here the source computes `Array(Math.ceil(-Infinity))`, which throws a `RangeError`. It is modelled as `Err(InvalidArrayLength)`. A cut count above 2^32 - 1 throws the same error.
- **Empty outline in `craeteBlock`.** An outline without vertices is not rejected: `craeteBlock` records a position with NaN x and y, modelled as `NotANumber` (`EmptyOutlineHasNoPosition`).
- **No grid signal.** `splirtGrid` gives no signal when a shape still has included polygons after every cut. Its only error is the `RangeError` above.

## Model

| member | source | states |
|---|---|---|
| Bounds.GetMaxSize | src/utils.ts:93-116 | the nested loops return exactly the box of the fold `MaxSize`; the facts proved about `MaxSize` (below) therefore hold for the loops |
| Bounds.WidenByPath | src/utils.ts:102-107 | one path's `d.forEach` moves the running bounds exactly as folding that path's vertices onto them |
| Bounds.ExtentAppend | src/utils.ts:101-108 | folding the vertices of the paths seen so far and then one more path's vertices is folding their concatenation |
| Bounds.MaxSizeContains | src/utils.ts:96-115 | the box is infinite (None) exactly when no path has a vertex; otherwise width >= 0, height >= 0 and every vertex of every path lies inside the box |
| Bounds.MaxSizeTight | src/utils.ts:101-115 | each of x, x + width, y and y + height is the coordinate of an actual vertex of some path |
| Bounds.ExtentContains | src/utils.ts:101-108 | every vertex folded lies between the running minima and maxima |
| Bounds.ExtentTight | src/utils.ts:101-108 | every running minimum and maximum is attained by a vertex folded |
| Split.ClassifyByWinding | src/utils.ts:50-61 | the two lists pushed are the included polygons whose loopwise equals / differs from the root's, in original order; none when `included` is absent |
| Split.WindingPartition | src/utils.ts:50-61 | every included polygon goes to exactly one of the two lists (an order-keeping interleaving, equal multisets), and membership in each is decided by comparing loopwise with the root's, both directions |
| Split.PoolSameWinding | src/utils.ts:63-67 | the pool is the root's pieces followed by, per same-winding polygon in order, its split pieces or itself when the split is empty |
| Split.SamePiecesMembers | src/utils.ts:64-67 | a polygon is in the same-winding contribution exactly when, for some listed polygon, it is one of that polygon's split pieces, or that polygon itself when its split is empty |
| Split.SameWindingPooled | src/utils.ts:63-67 | every same-winding polygon ends up in the pool as itself (empty split) or as all of its pieces |
| Split.RouteOppositeWinding | src/utils.ts:69-80 | the subtraction list holds the opposite-winding polygons the line splits, and the pool gains the others unchanged, both in order |
| Split.HoleRouting | src/utils.ts:69-80 | an opposite-winding polygon is collected for subtraction if and only if its split is non-empty, and otherwise appears in the pool; the two lists interleave the opposite-winding list |
| Split.Subtracted | src/utils.ts:83-85 | the map of subtractions keeps one polygon per pooled polygon |
| Split.SubtractInOrder | src/utils.ts:84 | the reduce subtracts the collected holes left to right: the first hole is subtracted first, then the rest from that result |
| Split.Regroup | src/utils.ts:87-90 | one output shape per group; each shape's root and included list make up its group (`[path, ...included]`) and carry the input style |
| Split.SplitShape | src/utils.ts:45-91 | the passes compute `Fragments`; a root split into fewer than 2 pieces returns `[shape]` unchanged; every output shape carries the input's style |
| Grid.Ceil | src/utils.ts:122 | `Math.ceil` on a finite number: the least integer not below it |
| Grid.GridLinesLayout | src/utils.ts:122-147 | vertical cuts at x = minX + i*10 for 1 <= i < ceil(width/10), spanning the box's height and lying strictly inside it; horizontal cuts likewise in y; all vertical cuts precede all horizontal ones; the last cut on each axis leaves at most one cell |
| Grid.ApplyCutAppend | src/utils.ts:130-132 | one cut over a concatenated path list is the concatenation of the cut over each part, in path order |
| Grid.ApplyCutMisses | src/utils.ts:130-132 | a cut that splits no root into two or more pieces leaves the path list unchanged |
| Grid.ApplyCutsAppend | src/utils.ts:121-147 | applying the vertical cuts and then the horizontal ones is applying the whole line sequence in that order |
| Grid.CutPaths | src/utils.ts:129-133 | the per-cut loop concatenates `splitShape` of each path, in path order |
| Grid.VerticalPass | src/utils.ts:122-134 | the first loop, skipping index 0, applies exactly the vertical cuts, in index order |
| Grid.HorizontalPass | src/utils.ts:135-147 | the second loop, skipping index 0, applies exactly the horizontal cuts, in index order |
| Grid.SplitGrid | src/utils.ts:118-150 | the result is `GridPieces`: the RangeError when there is no vertex or a cut count is not an array length, otherwise the paths after every vertical and then every horizontal cut |
| Blocks.Outline | src/utils.ts:167-175 | the face outline has one point per vertex |
| Blocks.Walls | src/utils.ts:167-188 | one wall per vertex |
| Blocks.CreateBlock | src/utils.ts:152-205 | the block has as many walls and outline points as the path has vertices, and has not been turned yet |
| Blocks.WallRing | src/utils.ts:167-172 | wall i runs from vertex i (y negated) to vertex (i + 1) mod n, so each wall ends where the next begins and the last closes onto the first |
| Blocks.OwnBox | src/utils.ts:158 | the box of `[pathInfo]` is the fold over the path's own vertices |
| Blocks.EmptyOutlineHasNoPosition | src/utils.ts:157-163 | the position is NaN exactly when the outline has no vertex |
| Blocks.CentreOf | src/utils.ts:157-163 | for a path with a vertex, the position is ((minX + maxX) / 2, -(minY + maxY) / 2, depth / 2 = 1) over the path's own vertices |
| Blocks.BlockCentred | src/utils.ts:157-163 | for a non-empty outline the position has z = depth/2 = 1, and its x (and its negated y) is the midpoint of two vertices that bound every vertex on that axis |
| Scene.SpreadTweens | src/App.ts:89-115 | spread starts four tweens per block |
| Scene.SpreadTweensLayout | src/App.ts:89-115 | tweens 4i .. 4i+3 belong to block i: face and wall move to the same destination, then face and wall turn by the same random turn count |
| Scene.GatherReturnsToRest | src/App.ts:90-91 | when spread is called while scattered, each block's face and wall move back to that block's stored position |
| Scene.ScatterUsesRandomTargets | src/App.ts:86-96 | when spread is called while gathered, block i's face and wall move to the random point drawn for it |
| Scene.Spun | src/App.ts:63-68 | one frame turns every block once and keeps the block count |
| Scene.App.constructor | src/App.ts:18-20 | a new host has no blocks, no tweens, is gathered, and its render loop is running (the constructor calls `run`) |
| Scene.App.Animate | src/App.ts:59-75 | nothing changes once `running` is false; otherwise every block turns one step exactly when spread, and the next frame is scheduled; tweens and flags are untouched |
| Scene.App.CreateMesh | src/App.ts:77-81 | exactly one block, built from the path, is appended after the existing blocks; nothing else changes |
| Scene.App.Spread | src/App.ts:83-118 | all previous tweens are discarded and replaced by `SpreadTweens` of the blocks and the old flag; blocks unchanged; the flag flips |
| Scene.App.Clear | src/App.ts:221-227 | no blocks, no tweens, gathered, whatever the state before, so clearing twice is clearing once; `running` unchanged |
| Scene.App.Dispose | src/App.ts:229-234 | the render loop stops; blocks, tweens and flag unchanged |

## Left out

- `loadFont` and `parseFont` (`src/utils.ts:11-44`): an asynchronous network fetch and glyph extraction through opentype.js. The font cache `_font` is never assigned, so there is no caching to model.
- okageo's primitives: the model does not say what they compute, only how the code routes their results.
  - `splitPolyByLine`, `getLoopwise`, `getPolygonNotPolygon` and `getIncludedPolygonGroups` are arbitrary functions in `Geo`.
  - `getIncludedPolygonGroups` is assumed to return non-empty groups, which `const [path, ...included] = group` (`src/utils.ts:88`) relies on.
  - `getDistance`, `getRadian`, `getCenter`, `fitRect` and `triangleSplit` are not part of this model.
- The three.js meshes of `craeteBlock`: plane sizes (edge length, 0.95 × depth), translations, rotations, `mergeMesh`, `center` and the shape geometry. They are floating-point rendering. A block keeps only its outline, its wall edges and its position.
- TWEEN: easing, the 3000 ms duration, `stop`/`start`, and `TWEEN.update` in `animate`. Stopping the old tweens is modelled only as dropping them from `tweens`.
- The random values of `spread` are the parameters `scatter(i)` and `turns(i)`.
  - The range of `randomPos`, (Math.random() - 0.5) * 30 + 3, is not stated.
  - The bound `turns(i) < 10` is not stated.
- Scene.App.Spread: the rotation target `(floor(r.x / 2π) + rotPlus) · 2π` is recorded only as `TurnTo(rotPlus)`, because the current angle is a floating-point mesh property.
- Scene.App.Animate: the per-frame rotation of π/360 about the world x axis is counted as one step (`spin`), not as an angle. `controls.update`, rendering and `requestAnimationFrame` are left out. `scheduled` says whether the next frame is requested.
- `importFromString` (`src/App.ts:120-205`): it calls `splitPathListByGrid`, which `src/utils.ts` does not define. Its rounding and console output are logging.
- `init`, `run`, `setStyle` and `setRotateSpeed`: renderer, camera, controls and material plumbing. `run` appears only as the constructor leaving `running` true.
- Adding and removing meshes in the scene graph mirrors the `blocks` list and is not modelled separately.
- Floating point: coordinates are reals. `NaN` and `Infinity` appear only where they decide a result: the `NotANumber` position and the `None` box or thrown error.
- `src/components/*` and `src/index.tsx`: the React UI, event wiring and localStorage.
