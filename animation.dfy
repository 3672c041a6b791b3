/** One frame of the animation (public/javascripts/main.js:167-240): painting the live
    objects in depth order, advancing the population, and gating frames on the tick. */
module Animation {
  import opened Vectors
  import opened Objects
  import opened Dimensions
  import opened Ordering
  import opened Fade
  import opened Population
  import Generator

  /** Rotation added to the perspective at the start of every rendered frame, and the
      initial rotation, in degrees. */
  const ROTATION_STEP_DEG: real := 0.1
  const INITIAL_ROTATION_DEG: real := 45.0

  /** Number of azimuth samples of the static track: 0, 5, ..., 360 degrees. */
  const TRACK_SAMPLES: nat := 73

  /** A paint operation on the drawing surface: `renderLine` or `renderCircle`. */
  datatype DrawCall =
    | StrokeLine(from: Point, to: Point, stroke: Color, width: real, opacity: real)
    | PaintCircle(at: Point, radius: real, stroke: Color, fill: Color, opacity: real)

  /** `vertex.transform(perspective)` as a function of the vertex. */
  function View(g: Geometry, perspective: seq<real>): Vector -> Vector {
    v => g.transform(perspective, v)
  }

  /** The draw call for one object that passed the cull: its vertices projected, its
      opacity faded by world z, dispatched on its shape. */
  function Draw(g: Geometry, perspective: seq<real>, o: SceneObject): (c: DrawCall)
    requires WellFormed(o)
    ensures Visible(o) ==> 0.0 < c.opacity <= 1.0
    ensures c.opacity == Opacity(o.center.z)
    ensures o.shape.Line? <==> c.StrokeLine?
    ensures c.stroke == o.stroke
    ensures c.StrokeLine? ==>
      && c.width == 1.0
      && c.from == g.project(g.transform(perspective, o.vertices[0]))
      && c.to == g.project(g.transform(perspective, o.vertices[1]))
    ensures o.shape.Circle? ==>
      && c.PaintCircle?
      && c.fill == o.shape.fill
      && c.radius == o.shape.radius
      && c.at == g.project(g.transform(perspective, o.vertices[0]))
  {
    var projected := seq(|o.vertices|, i requires 0 <= i < |o.vertices| =>
                           g.project(g.transform(perspective, o.vertices[i])));
    var opacity := Opacity(o.center.z);
    match o.shape
    case Line => StrokeLine(projected[0], projected[1], o.stroke, 1.0, opacity)
    case Circle(fill, radius) => PaintCircle(projected[0], radius, o.stroke, fill, opacity)
  }

  /** The draw calls of the `forEach` over `sorted`: culled objects paint nothing. */
  function DrawAll(g: Geometry, perspective: seq<real>, sorted: seq<SceneObject>): seq<DrawCall>
    requires AllWellFormed(sorted)
  {
    if sorted == [] then []
    else
      var last := sorted[|sorted| - 1];
      DrawAll(g, perspective, sorted[..|sorted| - 1])
        + (if Visible(last) then [Draw(g, perspective, last)] else [])
  }

  /** Every call comes from a visible object, every visible object gets its call, and
      every painted opacity lies in (0, 1]. */
  lemma {:induction false} DrawAllPaintsVisible(g: Geometry, perspective: seq<real>, sorted: seq<SceneObject>)
    requires AllWellFormed(sorted)
    ensures forall c :: c in DrawAll(g, perspective, sorted) ==>
      0.0 < c.opacity <= 1.0 &&
      exists i :: 0 <= i < |sorted| && Visible(sorted[i]) && c == Draw(g, perspective, sorted[i])
    ensures forall i :: 0 <= i < |sorted| && Visible(sorted[i]) ==>
      Draw(g, perspective, sorted[i]) in DrawAll(g, perspective, sorted)
    ensures |DrawAll(g, perspective, sorted)| <= |sorted|
  {
    if sorted != [] {
      var front := sorted[..|sorted| - 1];
      DrawAllPaintsVisible(g, perspective, front);
      forall c | c in DrawAll(g, perspective, front)
        ensures exists i :: 0 <= i < |sorted| && Visible(sorted[i]) && c == Draw(g, perspective, sorted[i])
      {
        var i :| 0 <= i < |front| && Visible(front[i]) && c == Draw(g, perspective, front[i]);
        assert sorted[i] == front[i];
      }
      forall i | 0 <= i < |sorted| - 1 && Visible(sorted[i])
        ensures Draw(g, perspective, sorted[i]) in DrawAll(g, perspective, sorted)
      {
        assert front[i] == sorted[i];
      }
    }
  }

  /** The calls are exactly one per visible object, in the order of `sorted`: call `j`
      is the draw call of the `j`-th visible object. */
  lemma {:induction false} DrawAllIsVisibleOnes(g: Geometry, perspective: seq<real>, sorted: seq<SceneObject>)
    requires AllWellFormed(sorted)
    ensures AllWellFormed(VisibleOnes(sorted))
    ensures |DrawAll(g, perspective, sorted)| == |VisibleOnes(sorted)|
    ensures forall j :: 0 <= j < |VisibleOnes(sorted)| ==>
      DrawAll(g, perspective, sorted)[j] == Draw(g, perspective, VisibleOnes(sorted)[j])
  {
    VisibleOnesMembers(sorted);
    if sorted != [] {
      var front := sorted[..|sorted| - 1];
      DrawAllIsVisibleOnes(g, perspective, front);
    }
  }

  /** An object outside (-CYLINDER_Z, CYLINDER_Z) adds no draw call; one inside adds one. */
  lemma DrawAllCull(g: Geometry, perspective: seq<real>, sorted: seq<SceneObject>, o: SceneObject)
    requires AllWellFormed(sorted) && WellFormed(o)
    ensures DrawAll(g, perspective, sorted + [o])
         == DrawAll(g, perspective, sorted) + (if Visible(o) then [Draw(g, perspective, o)] else [])
  {
    assert (sorted + [o])[..|sorted|] == sorted;
  }

  /** The `forEach` of `render` over the sorted objects: skip those outside the
      cylinder, paint the rest in order. */
  method PaintAll(g: Geometry, perspective: seq<real>, sorted: seq<SceneObject>) returns (calls: seq<DrawCall>)
    requires AllWellFormed(sorted)
    ensures calls == DrawAll(g, perspective, sorted)
  {
    calls := [];
    var i := 0;
    while i < |sorted|
      invariant 0 <= i <= |sorted|
      invariant calls == DrawAll(g, perspective, sorted[..i])
    {
      var o := sorted[i];
      assert sorted[..i + 1] == sorted[..i] + [o];
      DrawAllCull(g, perspective, sorted[..i], o);
      if Visible(o) {
        calls := calls + [Draw(g, perspective, o)];
      }
      i := i + 1;
    }
    assert sorted[..i] == sorted;
  }

  /** The population after a frame is again paintable and under the ceiling. */
  lemma NextPopulationValid(objects: seq<SceneObject>, g: Geometry, p: Palette, d: Generator.Draws)
    requires AllWellFormed(objects) && |objects| <= POPULATION_CEILING
    requires PaletteOk(p) && d.colorStart < |p.colors|
    ensures AllWellFormed(Replenish(Advance(objects), Generator.CreateObjects(g, p, d)))
    ensures |Replenish(Advance(objects), Generator.CreateObjects(g, p, d))| <= POPULATION_CEILING
  {
    var created := Generator.CreateObjects(g, p, d);
    Generator.CreateObjectsAtMost(g, p, d);
    PopulationBound(objects, created);
    AdvanceWellFormed(objects);
    var a := Advance(objects);
    var r := Replenish(a, created);
    forall k | 0 <= k < |r| ensures WellFormed(r[k]) {
      if k >= |a| { assert r[k] == created[k - |a|]; }
    }
  }

  /** The frame gate of `step`: work runs only when the tick moved. */
  predicate ShouldRender(prevTick: int, now: int) {
    now != prevTick
  }

  /** How many frames `step` renders when it sees `ticks` in turn, starting from `prevTick`. */
  function RenderCount(prevTick: int, ticks: seq<int>): nat
    decreases |ticks|
  {
    if ticks == [] then 0
    else (if ShouldRender(prevTick, ticks[0]) then 1 else 0) + RenderCount(ticks[0], ticks[1..])
  }

  /** The tick `ticks[i]` is compared with: its predecessor, or the initial one. */
  function Before(prevTick: int, ticks: seq<int>, i: nat): int
    requires i < |ticks|
  {
    if i == 0 then prevTick else ticks[i - 1]
  }

  /** The positions at which the tick changes from its predecessor. */
  function Changes(prevTick: int, ticks: seq<int>): set<nat> {
    set i: nat | i < |ticks| && ticks[i] != Before(prevTick, ticks, i)
  }

  function LastTick(prevTick: int, ticks: seq<int>): int {
    if ticks == [] then prevTick else ticks[|ticks| - 1]
  }

  lemma {:induction false} RenderCountSnoc(prevTick: int, ticks: seq<int>, now: int)
    ensures RenderCount(prevTick, ticks + [now])
         == RenderCount(prevTick, ticks) + (if now != LastTick(prevTick, ticks) then 1 else 0)
    decreases |ticks|
  {
    if ticks == [] {
      assert [now][1..] == [];
    } else {
      assert (ticks + [now])[0] == ticks[0] && (ticks + [now])[1..] == ticks[1..] + [now];
      RenderCountSnoc(ticks[0], ticks[1..], now);
      assert LastTick(ticks[0], ticks[1..]) == LastTick(prevTick, ticks);
    }
  }

  /** The number of rendered frames is the number of positions where the tick differs
      from its predecessor, the first tick counting when it differs from `prevTick`. */
  lemma {:induction false} RenderCountIsChanges(prevTick: int, ticks: seq<int>)
    ensures RenderCount(prevTick, ticks) == |Changes(prevTick, ticks)|
    decreases |ticks|
  {
    if ticks != [] {
      var n := |ticks| - 1;
      var front, now := ticks[..n], ticks[n];
      assert ticks == front + [now];
      RenderCountIsChanges(prevTick, front);
      RenderCountSnoc(prevTick, front, now);
      var changesBefore := Changes(prevTick, front);
      assert now != LastTick(prevTick, front) <==> now != Before(prevTick, ticks, n);
      forall i: nat | i < n ensures Before(prevTick, ticks, i) == Before(prevTick, front, i) {
      }
      if now != Before(prevTick, ticks, n) {
        assert Changes(prevTick, ticks) == changesBefore + {n};
        assert n !in changesBefore;
      } else {
        assert Changes(prevTick, ticks) == changesBefore;
      }
    }
  }

  /** The perspective angles `n` rendered frames append: one rotation step each. */
  function Turns(g: Geometry, n: nat): (r: seq<real>)
    ensures |r| == n
    ensures forall k :: 0 <= k < n ==> r[k] == g.toRadians(ROTATION_STEP_DEG)
  {
    if n == 0 then [] else Turns(g, n - 1) + [g.toRadians(ROTATION_STEP_DEG)]
  }

  /** The live objects after `step` has seen the first `n` ticks of `ticks`, starting
      from `objs`: each tick that differs from its predecessor advances the population
      and makes one generation attempt with its draws; any other tick changes nothing. */
  function ObjectsAfter(g: Geometry, p: Palette, ds: seq<Generator.Draws>, objs: seq<SceneObject>,
                        prevTick: int, ticks: seq<int>, n: nat): seq<SceneObject>
    requires PaletteOk(p) && n <= |ticks| <= |ds|
    requires forall i :: 0 <= i < |ds| ==> ds[i].colorStart < |p.colors|
  {
    if n == 0 then objs
    else
      var before := ObjectsAfter(g, p, ds, objs, prevTick, ticks, n - 1);
      if ticks[n - 1] != Before(prevTick, ticks, n - 1)
      then Replenish(Advance(before), Generator.CreateObjects(g, p, ds[n - 1]))
      else before
  }

  /** The tick bookkeeping of one turn of `Scene.Run`'s loop: after `step` on tick `i`
      the last tick seen is `ticks[i]`, and the render count grows exactly when `step`
      rendered. */
  lemma RunTickStep(tick0: int, ticks: seq<int>, i: nat, renders: nat, rendered: bool)
    requires i < |ticks|
    requires renders == RenderCount(tick0, ticks[..i])
    requires rendered == ShouldRender(LastTick(tick0, ticks[..i]), ticks[i])
    ensures LastTick(tick0, ticks[..i]) == Before(tick0, ticks, i)
    ensures ticks[i] == LastTick(tick0, ticks[..i + 1])
    ensures renders + (if rendered then 1 else 0) == RenderCount(tick0, ticks[..i + 1])
  {
    assert ticks[..i + 1] == ticks[..i] + [ticks[i]];
    RenderCountSnoc(tick0, ticks[..i], ticks[i]);
  }

  /** The module-level `sphericals` loop: the track's samples at radius TRACK_RADIUS,
      polar angle THETA_DEG and azimuth 0, 5, ..., 360 degrees. */
  method TrackSphericals(g: Geometry) returns (sphericals: seq<Vector>)
    ensures |sphericals| == TRACK_SAMPLES
    ensures forall k :: 0 <= k < |sphericals| ==>
      sphericals[k] == Vector(TRACK_RADIUS, g.toRadians(THETA_DEG), g.toRadians((DELTA_THETA_DEG * k) as real))
  {
    var theta := g.toRadians(THETA_DEG);
    sphericals := [];
    var phiDeg := 0;
    while phiDeg <= 360
      invariant 0 <= phiDeg <= 365 && phiDeg % DELTA_THETA_DEG == 0
      invariant |sphericals| == phiDeg / DELTA_THETA_DEG
      invariant forall k :: 0 <= k < |sphericals| ==>
        sphericals[k] == Vector(TRACK_RADIUS, theta, g.toRadians((DELTA_THETA_DEG * k) as real))
    {
      var phi := g.toRadians(phiDeg as real);
      sphericals := sphericals + [Vector(TRACK_RADIUS, theta, phi)];
      phiDeg := phiDeg + DELTA_THETA_DEG;
    }
  }

  /** The animation's mutable state: the live `objects`, the Y rotations composed into
      `perspective` so far, and `prevTick`. */
  class Scene {
    var objects: seq<SceneObject>
    var perspective: seq<real>
    var prevTick: int

    /** Every live object can be painted, and the population stays under the ceiling. */
    ghost predicate Valid()
      reads this
    {
      AllWellFormed(objects) && |objects| <= POPULATION_CEILING
    }

    constructor (g: Geometry)
      ensures Valid()
      ensures objects == [] && perspective == [g.toRadians(INITIAL_ROTATION_DEG)] && prevTick == 0
    {
      objects := [];
      perspective := [g.toRadians(INITIAL_ROTATION_DEG)];
      prevTick := 0;
    }

    /** `render`: rotate the perspective, paint the objects in painter's order with cull
      and fade, advance and filter the population, and make one generation attempt when
      it is below the cap. Returns the paint operations in the order they are issued. */
    method Render(g: Geometry, p: Palette, d: Generator.Draws) returns (calls: seq<DrawCall>)
      requires Valid() && PaletteOk(p) && d.colorStart < |p.colors|
      modifies this
      ensures Valid()
      ensures perspective == old(perspective) + [g.toRadians(ROTATION_STEP_DEG)]
      ensures AllWellFormed(StableSort(View(g, perspective), old(objects)))
      ensures calls == DrawAll(g, perspective, StableSort(View(g, perspective), old(objects)))
      ensures objects == Replenish(Advance(old(objects)), Generator.CreateObjects(g, p, d))
      ensures prevTick == old(prevTick)
    {
      perspective := perspective + [g.toRadians(ROTATION_STEP_DEG)];
      var sorted := StableSort(View(g, perspective), objects);
      StableSortKeeps(View(g, perspective), objects);
      calls := PaintAll(g, perspective, sorted);
      var created := Generator.CreateObjects(g, p, d);
      NextPopulationValid(objects, g, p, d);
      objects := Replenish(Advance(objects), created);
    }

    /** `step` called once per tick of `ticks`, the `i`-th call with the draws `ds[i]`:
      it renders exactly `RenderCount` times, that is once per position where the
      tick changes, adds one rotation step per render and leaves `prevTick` at the last
      tick and the objects at `ObjectsAfter`. */
    method Run(g: Geometry, p: Palette, ds: seq<Generator.Draws>, ticks: seq<int>) returns (renders: nat)
      requires Valid() && PaletteOk(p) && |ds| == |ticks|
      requires forall i :: 0 <= i < |ds| ==> ds[i].colorStart < |p.colors|
      modifies this
      ensures Valid()
      ensures renders == RenderCount(old(prevTick), ticks)
      ensures renders == |Changes(old(prevTick), ticks)|
      ensures prevTick == LastTick(old(prevTick), ticks)
      ensures perspective == old(perspective) + Turns(g, renders)
      ensures objects == ObjectsAfter(g, p, ds, old(objects), old(prevTick), ticks, |ticks|)
    {
      ghost var tick0, objects0, perspective0 := prevTick, objects, perspective;
      renders := 0;
      var i := 0;
      while i < |ticks|
        invariant 0 <= i <= |ticks|
        invariant Valid()
        invariant renders == RenderCount(tick0, ticks[..i])
        invariant prevTick == LastTick(tick0, ticks[..i])
        invariant perspective == perspective0 + Turns(g, renders)
        invariant objects == ObjectsAfter(g, p, ds, objects0, tick0, ticks, i)
      {
        ghost var objectsBefore := objects;
        var rendered, calls := Step(g, p, ds[i], ticks[i]);
        RunTickStep(tick0, ticks, i, renders, rendered);
        if rendered {
          assert objects == Replenish(Advance(objectsBefore), Generator.CreateObjects(g, p, ds[i]));
          assert Turns(g, renders + 1) == Turns(g, renders) + [g.toRadians(ROTATION_STEP_DEG)];
          renders := renders + 1;
        } else {
          assert objects == objectsBefore;
        }
        i := i + 1;
      }
      assert ticks[..i] == ticks;
      RenderCountIsChanges(tick0, ticks);
    }

    /** `step`: render exactly when the tick differs from `prevTick`, which then becomes
      the tick. Without a render nothing else changes and nothing is painted. */
    method Step(g: Geometry, p: Palette, d: Generator.Draws, now: int) returns (rendered: bool, calls: seq<DrawCall>)
      requires Valid() && PaletteOk(p) && d.colorStart < |p.colors|
      modifies this
      ensures Valid()
      ensures rendered == ShouldRender(old(prevTick), now)
      ensures prevTick == now
      ensures !rendered ==> objects == old(objects) && perspective == old(perspective) && calls == []
      ensures rendered ==>
        perspective == old(perspective) + [g.toRadians(ROTATION_STEP_DEG)] &&
        AllWellFormed(StableSort(View(g, perspective), old(objects))) &&
        calls == DrawAll(g, perspective, StableSort(View(g, perspective), old(objects))) &&
        objects == Replenish(Advance(old(objects)), Generator.CreateObjects(g, p, d))
    {
      rendered := ShouldRender(prevTick, now);
      if !rendered {
        calls := [];
        return;
      }
      prevTick := now;
      calls := Render(g, p, d);
    }
  }
}
