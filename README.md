# Wormhole starfield: scene population and frame step

This project models the object logic of the wormhole animation in `public/javascripts/main.js`.
That logic decides which stars, moons and planets exist, the order in which they are painted,
which of them are painted, and how transparent each one is. The model covers:

- **Objects** (`objects.dfy`): a scene object is a line or a circle. It carries vertices, a world-space
  centre, a stroke colour, a fill and radius (circles only) and an opacity.
- **Generator** (`generator.dfy`): `ring` is a method with the source's `for` loop. It is proved equal
  to the function `RingLines`. `rings` (the `reduce` with its colour-index accumulator), `moon`, `planet`
  and `createObjects` are functions. The random draws are parameters (`Draws`).
- **Ordering** (`ordering.dfy`): `renderOrderComparator` compares on the camera-relative (z, x, y).
  A stable insertion sort stands in for the library's `stableSort`. It is proved sorted, a permutation
  and stable.
- **Fade** (`fade.dfy`): the `getOpacity` fade ramp and the cull test.
- **Population** (`population.dfy`): the per-frame shift by `Δz`, the filter at `-CYLINDER_Z`, and the
  top-up that runs when the list is below `NUM_OBJECTS`.
- **Animation** (`animation.dfy`): painting turns each object into a draw-call value. A class `Scene`
  holds the module-level `objects`, `perspective` and `prevTick`. `Render` and `Step` update them. The
  tick gate and the track's spherical samples are also here.

Coordinates are `real`. The constants of `constants/dimensions.js` are in `dimensions.dfy`.
These geometry helpers are not shown in the source, so they are fields of a `Geometry` parameter
and stay uninterpreted:

- degree-to-radian conversion;
- `toCartesian`;
- applying the perspective matrix;
- `Camera.project`.

The perspective matrix is represented by the list of Y-rotation angles composed into it so far:
45 degrees at start, plus 0.1 degrees per rendered frame. No property of rotation composition is assumed.

Two facts about the code shape the model's bounds:

- The code does not keep the population at or below `NUM_OBJECTS`. It appends a whole generation
  attempt whenever the list is below 200, so the population can reach 199 + 73 = 272
  (`Population.CapNotStrict`). The bound the model preserves is `POPULATION_CEILING` = 272.
- Spawn points are `toCartesian(...) + (0, 0, 20)`, and `toCartesian` is uninterpreted here. So only
  the lower bound after the advance (`z > -CYLINDER_Z`) is proved, not that a new object starts
  inside the cylinder.

## Model

Functions that only compute have no row of their own. The rows named after each one state what it does:

- `Population.Advance` and `Population.Survivors`: `AdvanceOrder`, `AdvanceMembers`, `AdvanceLength`, `AdvanceWellFormed`.
- `Population.Shift` and `Population.ShiftAll`: `ShiftMovesOnlyZ`, `AdvanceOrder`.
- `Population.Replenish`: `PopulationBound`, `CapNotStrict`.
- `Generator.SpawnPoint`: `CreateObjects`.
- `Generator.Segment`: `SegmentShape`.
- `Generator.RingLines`: `RingLinesShape`, `Ring`.
- `Generator.Rings`, `Generator.RingsFold` and `Generator.NextColor`: `RingsIsRingsUpTo`, `ColorAt`, `RingsBlocks`.
- `Generator.TranslateAll`: `TranslateAllAt`, `TranslateAllMoves`, `TranslateAllRoundTrip`.
- `Generator.Planet`: `PlanetShape`.
- `Ordering.Key`: `Compare`.
- `Fade.Visible`: `DrawAllCull`, `VisibleOnesMembers`, `DrawAllIsVisibleOnes`.
- `Animation.DrawAll`: `PaintAll`, `DrawAllPaintsVisible`, `DrawAllIsVisibleOnes`.
- `Animation.ShouldRender` and `Animation.RenderCount`: `Scene.Step`, `RenderCountIsChanges`, `Scene.Run`.
- `Animation.Turns` and `Animation.ObjectsAfter`: `Scene.Run`.

| member | source | states |
|---|---|---|
| `Ordering.Compare` | public/javascripts/main.js:121-133 | `renderOrderComparator` returns -1, 0 or 1. Each object is measured as `campos - center.transform(perspective)`. The result is negative exactly when `a`'s camera-relative centre precedes `b`'s in (z, x, y) order, positive exactly when `b`'s precedes `a`'s, and 0 exactly when they are equal. |
| `Ordering.CompareKeys` | public/javascripts/main.js:125-132 | Returns -1, 0 or 1. It is negative exactly when `a` precedes `b` in lexicographic (z, x, y) order, positive exactly when `b` precedes `a`, and 0 exactly when the camera-relative centres are equal. |
| `Ordering.CompareAntisymmetric` | public/javascripts/main.js:121-133 | `cmp(a, b) == -cmp(b, a)`. |
| `Ordering.CompareTransitive` | public/javascripts/main.js:121-133 | `<= 0` is transitive, and so is `< 0` mixed with `<= 0`. With antisymmetry this makes the comparator a total preorder. |
| `Ordering.StableSort` | public/javascripts/main.js:202 | The sorted list has as many objects as the live list. |
| `Ordering.StableSortPermutes` | public/javascripts/main.js:202 | The sorted list is a permutation (same multiset) of the live objects. |
| `Ordering.StableSortSorted` | public/javascripts/main.js:202 | The output is in painter's order: every earlier object compares `<= 0` with every later one. |
| `Ordering.StableSortStable` | public/javascripts/main.js:202 | For every camera-relative centre, the objects sharing it appear in the output in exactly their input order. |
| `Ordering.StableSortKeeps` | public/javascripts/main.js:202 | Sorting keeps the length and exactly the same objects, so it keeps well-formedness. |
| `Fade.Opacity` | public/javascripts/main.js:155-165 | For -20 < z < 20 the opacity lies in (0, 1], and it is exactly 1 on [-10, 10]. |
| `Fade.OpacityPieces` | public/javascripts/main.js:155-165 | The closed forms: (z + 20) / 10 below -10, 1 on [-10, 10], and 1 - (z - 10) / 10 above 10. |
| `Fade.OpacityRamps` | public/javascripts/main.js:155-165 | The far ramp strictly increases and the near ramp strictly decreases. Opacity is 0 at ±20 and 1 at ±10. |
| `Animation.Draw` | public/javascripts/main.js:204-215 | A drawn object's opacity is `getOpacity` of its world z and lies in (0, 1] when the object is visible. The call carries the object's stroke. A line becomes a line stroke of width 1 between the projections of its two transformed vertices. A circle becomes a circle paint at the projection of its transformed vertex, with the circle's fill and radius. |
| `Animation.PaintAll` | public/javascripts/main.js:202-217 | The `forEach` loop issues exactly the draw calls of `DrawAll` on the sorted list, in order. |
| `Animation.DrawAllPaintsVisible` | public/javascripts/main.js:202-217 | Every draw call is the call of some visible object and has opacity in (0, 1]. Every visible object's call is among the calls. There are at most as many calls as objects. |
| `Animation.DrawAllIsVisibleOnes` | public/javascripts/main.js:202-217 | The calls correspond one to one, in order, to the visible objects of the sorted list: there are as many calls as visible objects, and call `j` is the draw call of the `j`-th visible object. |
| `Fade.VisibleOnes` | public/javascripts/main.js:203 | The objects the cull lets through are all visible, and there are at most as many of them as objects. |
| `Fade.VisibleOnesMembers` | public/javascripts/main.js:203 | An object passes the cull exactly when it is in the list and strictly inside (-CYLINDER_Z, CYLINDER_Z). The objects that pass stay well-formed. |
| `Animation.DrawAllCull` | public/javascripts/main.js:203 | An object outside (-CYLINDER_Z, CYLINDER_Z) adds no draw call, and one inside adds exactly its own. |
| `Population.ShiftMovesOnlyZ` | public/javascripts/main.js:219-222 | The shift lowers the z of the centre and of every vertex by exactly Δz. It keeps x, y, shape (radius, fill), stroke and opacity. It is translation by (0, 0, -Δz) and preserves well-formedness. |
| `Population.AdvanceOrder` | public/javascripts/main.js:219-223 | The advance distributes over concatenation, so relative order is kept. On one object it keeps the shifted object exactly when its z is above -CYLINDER_Z. |
| `Population.AdvanceMembers` | public/javascripts/main.js:219-223 | The survivors are exactly the shifted objects whose centre z is above -CYLINDER_Z. |
| `Population.AdvanceLength` | public/javascripts/main.js:219-223 | The advance never grows the list. When no object crosses the far end, it equals the plain shift. |
| `Population.AdvanceWellFormed` | public/javascripts/main.js:219-223 | Survivors stay paintable. |
| `Population.PopulationBound` | public/javascripts/main.js:225-227 | A population of at most 272 stays at most 272 after a step, since one attempt adds at most 73 objects. |
| `Population.CapNotStrict` | public/javascripts/main.js:225-227 | 199 interior objects plus a planet in the same frame give 272 objects, more than NUM_OBJECTS = 200. |
| `Animation.NextPopulationValid` | public/javascripts/main.js:219-227 | The population after a step is well-formed and within the 272 ceiling. |
| `Generator.SegmentShape` | public/javascripts/main.js:72-78 | A ring segment is a line joining its two samples, centred at their midpoint. |
| `Generator.RingSegments` | public/javascripts/main.js:66-79 | `n` samples give `n - 1` lines, or none for fewer than two samples. |
| `Generator.RingSegmentsAt` | public/javascripts/main.js:66-79 | Segment `i` is the line from sample `i` to sample `i + 1`. |
| `Generator.RingSegmentsChain` | public/javascripts/main.js:62-80 | Every segment is a well-formed line in the ring's stroke colour with vertices `[p_i, p_{i+1}]`, so consecutive segments share an endpoint. |
| `Generator.RingLinesShape` | public/javascripts/main.js:57-83 | `ring` gives 18 lines. Line `i` joins the samples at polar angles 20i and 20(i + 1) degrees. |
| `Generator.Ring` | public/javascripts/main.js:57-83 | The loop's result equals `RingLines` and has 18 segments. |
| `Generator.ColorAt` | public/javascripts/main.js:86-91 | Every colour index after the first is (previous + 2) mod (|COLORS| - 1), so it lies in [0, |COLORS| - 2]. |
| `Generator.RingsIsRingsUpTo` | public/javascripts/main.js:85-93 | The `reduce`, with its colour accumulator updated at every index after 0, equals the reference concatenation `RingsUpTo`: ring `j` in colour `ColorAt(start, j)`, for every `j` in order. |
| `Generator.RingsBlocks` | public/javascripts/main.js:85-93 | `rings` gives 18 lines per radius. Block `i` is `ring(rs[i])` in colour `COLORS[ColorAt(start, i)]`. Every object is a well-formed line. |
| `Generator.Moon` | public/javascripts/main.js:95-105 | `moon` is one circle of the given radius whose stroke equals its fill. Its vertices are `[center]` and its opacity is 1. |
| `Generator.TranslateAllAt` | public/javascripts/main.js:110-114 | The planet's `map` translates each object at its own index. |
| `Generator.TranslateAllMoves` | public/javascripts/main.js:110-114 | Every vertex and every centre moves by the same offset. Nothing else changes. |
| `Generator.TranslateAllRoundTrip` | public/javascripts/main.js:110-114 | Translating by an offset and then by its negation restores the list. |
| `Objects.TranslateRoundTrip` | public/javascripts/main.js:111-113 | The same round trip for one object. |
| `Generator.PlanetShape` | public/javascripts/main.js:107-115 | A planet is 73 well-formed objects: a circle of PLANET_RADIUS at the spawn point, then 72 lines. |
| `Generator.CreateObjects` | public/javascripts/main.js:135-153 | Exactly one branch fires. Above 0.995 it gives 73 objects headed by a planet body. Above 0.99 it gives one moon circle of MOON_RADIUS at the spawn point. Above 0.8 it gives one circle of STAR_RADIUS in STAR_COLOR. Otherwise it gives nothing. |
| `Generator.CreateObjectsAtMost` | public/javascripts/main.js:144-152 | One attempt adds 0, 1 or 73 objects. |
| `Animation.RenderCountIsChanges` | public/javascripts/main.js:230-240 | Over a sequence of ticks, the number of renders equals the number of positions where the tick differs from its predecessor. The first tick is compared with the initial `prevTick`. |
| `Animation.TrackSphericals` | public/javascripts/main.js:45-53 | The track has 73 spherical samples at radius 10, polar angle 90° and azimuth 5k°. |
| `Animation.Scene.constructor` | public/javascripts/main.js:117 | Starts with no objects, the 45° initial rotation and `prevTick` 0. |
| `Animation.Scene.Render` | public/javascripts/main.js:167-228 | `Render` appends a 0.1° rotation and issues the draw calls for the stably sorted objects under the new perspective. The new objects are the advanced list, topped up by one generation attempt when it is below 200. The population invariant is kept. |
| `Animation.Scene.Step` | public/javascripts/main.js:232-240 | `Step` renders exactly when the tick differs from `prevTick`, then sets `prevTick` to the tick. Without a render it changes nothing and paints nothing. |
| `Animation.Scene.Run` | public/javascripts/main.js:230-240 | Calling `Step` once per tick renders exactly `RenderCount` times, which is the number of positions where the tick changes. `prevTick` ends at the last tick, and the population invariant is kept. The perspective gains one 0.1° rotation per render. The final objects are `ObjectsAfter`: for each tick that changes, in order, the population is advanced and given one generation attempt with that tick's draws, and every other tick leaves it unchanged. |

## Left out

- Canvas and DOM work is left out: the canvas lookup, `clearRect`, `shadowBlur`, and the pixels drawn by `renderLine` and `renderCircle`. Painting is modelled as a list of draw-call values.
- The per-frame drawing of the cylinder track (main.js:173-199) is left out, because it only draws. Only the track's 73 spherical samples are modelled.
- `requestAnimationFrame`, `Date.now()` and the rounding `Math.round(FPS * now / 1000)` are left out. The rounded tick is an integer parameter of `Step`.
- `Math.random`, `rand`, `sample`, `seed` and `noise` are left out. Their results are fields of `Draws` and are not constrained to the draw ranges (`BOUNDARY_RADIUS`, [10, 55], [0, 360]). `Draws.color` stands for `sample(COLORS)` and is not required to be one of the palette's colours. A planet's body colour and a moon's colour are both the single `Draws.color`, since only one of them is drawn per call.
- `stableSort` and `remap` are library code that is not part of this model. A proved stable insertion sort stands in for the first, and a linear rescale stands in for the second. The model takes `stableSort` to return a new list and leave `objects` in its old order, since `Render` advances the unsorted list. If the library sorted in place, the next frame would start from the sorted order, and ties would be broken differently.
- Angle conversion, `toCartesian`, the matrix transform and `rotY` composition, and `Camera.project` are not part of this model. They are uninterpreted fields of `Geometry`, so no spherical round trip or rotation identity is proved.
- The palette (`constants/colors.js`) is not part of this model. It is a `Palette` parameter with at least two colours, because `rings` takes indices modulo `COLORS.length - 1`.
- Floating-point rounding is not modelled, since coordinates are exact reals. The camera construction, `ZOOM` and `BLUR` are left out.
