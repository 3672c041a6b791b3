/** Procedural object construction: `ring`, `rings`, `moon`, `planet` and `createObjects`
    (public/javascripts/main.js:57-153). Random draws are parameters. */
module Generator {
  import opened Vectors
  import opened Objects
  import opened Dimensions

  /** Polar angles sampled by `ring`: 0, 20, ..., 360 degrees. */
  const RING_STEP_DEG: int := 20
  const RING_SAMPLES: nat := 19
  const RING_SEGMENTS: nat := 18

  /** The four ring radii of a planet and its object count: one body plus 4 x 18 segments. */
  const PLANET_RING_RADII: seq<real> := [2.25, 2.5, 2.75, 3.0]
  const PLANET_SIZE: nat := 73

  /** The line `ring` pushes for two consecutive samples. */
  function Segment(previous: Vector, cartesian: Vector, stroke: Color): SceneObject {
    SceneObject(Line, [previous, cartesian],
                Add(Divide(Subtract(cartesian, previous), 2.0), previous), stroke, 1.0)
  }

  /** A segment joins its two samples and sits at their midpoint. */
  lemma SegmentShape(previous: Vector, cartesian: Vector, stroke: Color)
    ensures WellFormed(Segment(previous, cartesian, stroke))
    ensures Segment(previous, cartesian, stroke).vertices == [previous, cartesian]
    ensures Segment(previous, cartesian, stroke).center
         == Vector((previous.x + cartesian.x) / 2.0, (previous.y + cartesian.y) / 2.0,
                   (previous.z + cartesian.z) / 2.0)
  {
  }

  /** The Cartesian sample of `ring` at polar angle `thetaDeg`. */
  function RingSample(g: Geometry, r: real, phiDeg: real, thetaDeg: int): Vector {
    g.toCartesian(Vector(r, g.toRadians(thetaDeg as real), g.toRadians(phiDeg)))
  }

  function RingSamples(g: Geometry, r: real, phiDeg: real): seq<Vector> {
    seq(RING_SAMPLES, k => RingSample(g, r, phiDeg, RING_STEP_DEG * k))
  }

  /** The lines `ring` emits for the samples seen so far: one per consecutive pair. */
  function RingSegments(points: seq<Vector>, stroke: Color): (lines: seq<SceneObject>)
    ensures |lines| == if |points| < 2 then 0 else |points| - 1
  {
    if |points| < 2 then []
    else RingSegments(points[..|points| - 1], stroke)
         + [Segment(points[|points| - 2], points[|points| - 1], stroke)]
  }

  /** Segment i joins samples i and i + 1. */
  lemma {:induction false} RingSegmentsAt(points: seq<Vector>, stroke: Color, i: nat)
    requires i + 1 < |points|
    ensures RingSegments(points, stroke)[i] == Segment(points[i], points[i + 1], stroke)
  {
    var front := points[..|points| - 1];
    if i + 2 < |points| {
      RingSegmentsAt(front, stroke, i);
      assert front[i] == points[i] && front[i + 1] == points[i + 1];
    }
  }

  /** Every segment is a well-formed line from sample i to sample i + 1, so consecutive
      segments share an endpoint. */
  lemma RingSegmentsChain(points: seq<Vector>, stroke: Color)
    ensures forall i :: 0 <= i < |points| - 1 ==>
      RingSegments(points, stroke)[i] == Segment(points[i], points[i + 1], stroke)
    ensures forall i :: 0 <= i < |points| - 1 ==>
      WellFormed(RingSegments(points, stroke)[i]) &&
      RingSegments(points, stroke)[i].vertices == [points[i], points[i + 1]] &&
      RingSegments(points, stroke)[i].stroke == stroke
  {
    forall i | 0 <= i < |points| - 1
      ensures RingSegments(points, stroke)[i] == Segment(points[i], points[i + 1], stroke)
    {
      RingSegmentsAt(points, stroke, i);
    }
  }

  /** What `ring(r, phiDeg, stroke)` returns. */
  function RingLines(g: Geometry, r: real, phiDeg: real, stroke: Color): seq<SceneObject> {
    RingSegments(RingSamples(g, r, phiDeg), stroke)
  }

  lemma RingLinesShape(g: Geometry, r: real, phiDeg: real, stroke: Color)
    ensures |RingLines(g, r, phiDeg, stroke)| == RING_SEGMENTS
    ensures AllWellFormed(RingLines(g, r, phiDeg, stroke))
    ensures forall i :: 0 <= i < RING_SEGMENTS ==>
      RingLines(g, r, phiDeg, stroke)[i].shape == Line &&
      RingLines(g, r, phiDeg, stroke)[i].stroke == stroke &&
      RingLines(g, r, phiDeg, stroke)[i].vertices
        == [RingSample(g, r, phiDeg, RING_STEP_DEG * i), RingSample(g, r, phiDeg, RING_STEP_DEG * (i + 1))]
  {
    var samples := RingSamples(g, r, phiDeg);
    RingSegmentsChain(samples, stroke);
    forall i | 0 <= i < RING_SEGMENTS
      ensures RingLines(g, r, phiDeg, stroke)[i].vertices
        == [RingSample(g, r, phiDeg, RING_STEP_DEG * i), RingSample(g, r, phiDeg, RING_STEP_DEG * (i + 1))]
    {
      RingSegmentsAt(samples, stroke, i);
    }
  }

  /** `ring`: sample the polar angle from 0 to 360 degrees in steps of 20 and join each
      sample to the previous one. */
  method Ring(g: Geometry, r: real, phiDeg: real, stroke: Color) returns (results: seq<SceneObject>)
    ensures results == RingLines(g, r, phiDeg, stroke)
    ensures |results| == RING_SEGMENTS
  {
    var phi := g.toRadians(phiDeg);
    var points: seq<Vector> := [];
    results := [];
    var thetaDeg := 0;
    ghost var samples := RingSamples(g, r, phiDeg);
    while thetaDeg <= 360
      invariant 0 <= |points| <= RING_SAMPLES && thetaDeg == RING_STEP_DEG * |points|
      invariant points == samples[..|points|]
      invariant results == RingSegments(points, stroke)
    {
      var theta := g.toRadians(thetaDeg as real);
      var cartesian := g.toCartesian(Vector(r, theta, phi));
      if |points| > 0 {
        var previous := points[|points| - 1];
        assert (points + [cartesian])[..|points|] == points;
        results := results + [Segment(previous, cartesian, stroke)];
      }
      assert cartesian == samples[|points|];
      points := points + [cartesian];
      thetaDeg := thetaDeg + RING_STEP_DEG;
    }
    assert points == samples;
  }

  /** The colour index stride of `rings`. */
  function NextColor(index: nat, count: nat): nat
    requires count >= 2
  {
    (index + 2) % (count - 1)
  }

  /** The colour index `rings` uses for ring number `i`. */
  function ColorAt(start: nat, count: nat, i: nat): (index: nat)
    requires count >= 2
    ensures i > 0 ==> index <= count - 2
    ensures i > 0 ==> index == NextColor(ColorAt(start, count, i - 1), count)
  {
    if i == 0 then start else NextColor(ColorAt(start, count, i - 1), count)
  }

  /** The `reduce` of `rings` from ring `i` on, with the colour index and the list built so far. */
  function RingsFold(g: Geometry, rs: seq<real>, phiDeg: real, colors: seq<Color>,
                     i: nat, colorIndex: nat, memo: seq<SceneObject>): seq<SceneObject>
    requires |colors| >= 2 && i <= |rs| && colorIndex < |colors|
    decreases |rs| - i
  {
    if i == |rs| then memo
    else
      var next := if i > 0 then NextColor(colorIndex, |colors|) else colorIndex;
      RingsFold(g, rs, phiDeg, colors, i + 1, next, memo + RingLines(g, rs[i], phiDeg, colors[next]))
  }

  /** `rings(rs, phiDeg)` with `start` the initial random colour index. */
  function Rings(g: Geometry, rs: seq<real>, phiDeg: real, colors: seq<Color>, start: nat): seq<SceneObject>
    requires |colors| >= 2 && start < |colors|
  {
    RingsFold(g, rs, phiDeg, colors, 0, start, [])
  }

  /** Reference definition of `rings`: the first `n` rings, ring `j` in colour
      `ColorAt(start, _, j)`, concatenated in order. */
  function RingsUpTo(g: Geometry, rs: seq<real>, phiDeg: real, colors: seq<Color>, start: nat, n: nat): seq<SceneObject>
    requires |colors| >= 2 && start < |colors| && n <= |rs|
  {
    if n == 0 then []
    else RingsUpTo(g, rs, phiDeg, colors, start, n - 1) + RingBlock(g, rs, phiDeg, colors, start, n - 1)
  }

  lemma {:induction false} RingsFoldIsRingsUpTo(g: Geometry, rs: seq<real>, phiDeg: real, colors: seq<Color>,
                                               start: nat, i: nat, colorIndex: nat)
    requires |colors| >= 2 && start < |colors| && i <= |rs| && colorIndex < |colors|
    requires colorIndex == if i == 0 then start else ColorAt(start, |colors|, i - 1)
    ensures RingsFold(g, rs, phiDeg, colors, i, colorIndex, RingsUpTo(g, rs, phiDeg, colors, start, i))
         == RingsUpTo(g, rs, phiDeg, colors, start, |rs|)
    decreases |rs| - i
  {
    if i < |rs| {
      var next := if i > 0 then NextColor(colorIndex, |colors|) else colorIndex;
      assert next == ColorAt(start, |colors|, i);
      var upTo := RingsUpTo(g, rs, phiDeg, colors, start, i);
      var block := RingLines(g, rs[i], phiDeg, colors[next]);
      assert block == RingBlock(g, rs, phiDeg, colors, start, i);
      assert RingsUpTo(g, rs, phiDeg, colors, start, i + 1) == upTo + block;
      assert RingsFold(g, rs, phiDeg, colors, i, colorIndex, upTo)
          == RingsFold(g, rs, phiDeg, colors, i + 1, next, upTo + block);
      RingsFoldIsRingsUpTo(g, rs, phiDeg, colors, start, i + 1, next);
    }
  }

  /** The `reduce` of `rings` computes the reference concatenation. */
  lemma RingsIsRingsUpTo(g: Geometry, rs: seq<real>, phiDeg: real, colors: seq<Color>, start: nat)
    requires |colors| >= 2 && start < |colors|
    ensures Rings(g, rs, phiDeg, colors, start) == RingsUpTo(g, rs, phiDeg, colors, start, |rs|)
  {
    RingsFoldIsRingsUpTo(g, rs, phiDeg, colors, start, 0, start);
  }

  /** Every object is a well-formed line. */
  predicate AllLines(s: seq<SceneObject>) {
    forall k :: 0 <= k < |s| ==> WellFormed(s[k]) && s[k].shape == Line
  }

  lemma {:induction false} RingsUpToLines(g: Geometry, rs: seq<real>, phiDeg: real, colors: seq<Color>,
                                         start: nat, n: nat)
    requires |colors| >= 2 && start < |colors| && n <= |rs|
    ensures AllLines(RingsUpTo(g, rs, phiDeg, colors, start, n))
  {
    if n > 0 {
      var front := RingsUpTo(g, rs, phiDeg, colors, start, n - 1);
      var block := RingBlock(g, rs, phiDeg, colors, start, n - 1);
      RingsUpToLines(g, rs, phiDeg, colors, start, n - 1);
      RingLinesShape(g, rs[n - 1], phiDeg, colors[ColorAt(start, |colors|, n - 1)]);
      assert AllLines(block);
      AppendLines(front, block);
    }
  }

  lemma AppendLines(a: seq<SceneObject>, b: seq<SceneObject>)
    requires AllLines(a) && AllLines(b)
    ensures AllLines(a + b)
  {
    forall k | 0 <= k < |a + b| ensures WellFormed((a + b)[k]) && (a + b)[k].shape == Line {
      if k < |a| { assert (a + b)[k] == a[k]; } else { assert (a + b)[k] == b[k - |a|]; }
    }
  }

  /** Ring `j` of `rings`: `ring` of radius `rs[j]` in colour `ColorAt(start, _, j)`. */
  function RingBlock(g: Geometry, rs: seq<real>, phiDeg: real, colors: seq<Color>, start: nat, j: nat): seq<SceneObject>
    requires |colors| >= 2 && start < |colors| && j < |rs|
  {
    RingLines(g, rs[j], phiDeg, colors[ColorAt(start, |colors|, j)])
  }

  lemma {:induction false} RingsUpToBlocks(g: Geometry, rs: seq<real>, phiDeg: real, colors: seq<Color>,
                                          start: nat, n: nat)
    requires |colors| >= 2 && start < |colors| && n <= |rs|
    ensures |RingsUpTo(g, rs, phiDeg, colors, start, n)| == RING_SEGMENTS * n
    ensures forall j :: 0 <= j < n ==>
      RingsUpTo(g, rs, phiDeg, colors, start, n)[RING_SEGMENTS * j .. RING_SEGMENTS * (j + 1)]
        == RingBlock(g, rs, phiDeg, colors, start, j)
  {
    if n > 0 {
      var front := RingsUpTo(g, rs, phiDeg, colors, start, n - 1);
      var block := RingBlock(g, rs, phiDeg, colors, start, n - 1);
      RingsUpToBlocks(g, rs, phiDeg, colors, start, n - 1);
      RingLinesShape(g, rs[n - 1], phiDeg, colors[ColorAt(start, |colors|, n - 1)]);
      assert RingsUpTo(g, rs, phiDeg, colors, start, n) == front + block;
      forall j | 0 <= j < n
        ensures (front + block)[RING_SEGMENTS * j .. RING_SEGMENTS * (j + 1)]
             == RingBlock(g, rs, phiDeg, colors, start, j)
      {
        if j < n - 1 {
          SliceOfAppend(front, block, RING_SEGMENTS * j, RING_SEGMENTS * (j + 1));
        } else {
          SliceOfAppendRight(front, block);
        }
      }
    }
  }

  lemma SliceOfAppendRight<T>(a: seq<T>, b: seq<T>)
    ensures (a + b)[|a|..|a| + |b|] == b
  {
  }

  lemma SliceOfAppend<T>(a: seq<T>, b: seq<T>, lo: nat, hi: nat)
    requires lo <= hi <= |a|
    ensures (a + b)[lo..hi] == a[lo..hi]
  {
  }

  /** `rings` emits 18 segments per radius; the block of ring i is `ring` of that radius
      in colour `ColorAt(start, _, i)`, and every object is a well-formed line. */
  lemma RingsBlocks(g: Geometry, rs: seq<real>, phiDeg: real, colors: seq<Color>, start: nat)
    requires |colors| >= 2 && start < |colors|
    ensures |Rings(g, rs, phiDeg, colors, start)| == RING_SEGMENTS * |rs|
    ensures forall j :: 0 <= j < |rs| ==>
      Rings(g, rs, phiDeg, colors, start)[RING_SEGMENTS * j .. RING_SEGMENTS * (j + 1)]
        == RingBlock(g, rs, phiDeg, colors, start, j)
    ensures AllWellFormed(Rings(g, rs, phiDeg, colors, start))
    ensures forall k :: 0 <= k < |Rings(g, rs, phiDeg, colors, start)| ==>
      Rings(g, rs, phiDeg, colors, start)[k].shape == Line
  {
    RingsIsRingsUpTo(g, rs, phiDeg, colors, start);
    RingsUpToLines(g, rs, phiDeg, colors, start, |rs|);
    RingsUpToBlocks(g, rs, phiDeg, colors, start, |rs|);
    assert AllLines(Rings(g, rs, phiDeg, colors, start));
  }

  /** `moon(r, color, center)`: one circle whose stroke and fill are the given colour. */
  function Moon(r: real, color: Color, center: Vector): (objects: seq<SceneObject>)
    ensures |objects| == 1 && WellFormed(objects[0])
    ensures objects[0].shape == Circle(color, r) && objects[0].stroke == color
    ensures objects[0].vertices == [center] && objects[0].center == center
    ensures objects[0].opacity == 1.0
  {
    [SceneObject(Circle(color, r), [center], center, color, 1.0)]
  }

  /** The `map` of `planet`: every object moved by the same offset. */
  function TranslateAll(objects: seq<SceneObject>, offset: Vector): seq<SceneObject> {
    if objects == [] then [] else [Translate(objects[0], offset)] + TranslateAll(objects[1..], offset)
  }

  lemma {:induction false} TranslateAllAt(objects: seq<SceneObject>, offset: Vector)
    ensures |TranslateAll(objects, offset)| == |objects|
    ensures forall i :: 0 <= i < |objects| ==> TranslateAll(objects, offset)[i] == Translate(objects[i], offset)
  {
    if objects != [] {
      TranslateAllAt(objects[1..], offset);
    }
  }

  /** `planet` moves every vertex and every centre by the offset and changes nothing else. */
  lemma TranslateAllMoves(objects: seq<SceneObject>, offset: Vector)
    ensures |TranslateAll(objects, offset)| == |objects|
    ensures forall i :: 0 <= i < |objects| ==>
      var t := TranslateAll(objects, offset)[i];
      t.shape == objects[i].shape && t.stroke == objects[i].stroke &&
      t.opacity == objects[i].opacity && t.center == Add(objects[i].center, offset) &&
      |t.vertices| == |objects[i].vertices| &&
      forall j :: 0 <= j < |t.vertices| ==> t.vertices[j] == Add(objects[i].vertices[j], offset)
    ensures AllWellFormed(objects) ==> AllWellFormed(TranslateAll(objects, offset))
  {
    TranslateAllAt(objects, offset);
  }

  /** Translating a list and translating it back restores it. */
  lemma TranslateAllRoundTrip(objects: seq<SceneObject>, offset: Vector)
    ensures TranslateAll(TranslateAll(objects, offset), Negate(offset)) == objects
  {
    var t := TranslateAll(objects, offset);
    TranslateAllAt(objects, offset);
    TranslateAllAt(t, Negate(offset));
    forall i | 0 <= i < |objects|
      ensures TranslateAll(t, Negate(offset))[i] == objects[i]
    {
      TranslateRoundTrip(objects[i], offset);
    }
  }

  /** `planet(center)`: a body of PLANET_RADIUS and four rings tilted by `tiltDeg`, all
      moved to `center`. `bodyColor` is the body's sampled colour, `start` the rings'
      initial colour index. */
  function Planet(g: Geometry, colors: seq<Color>, center: Vector, tiltDeg: real,
                  bodyColor: Color, start: nat): seq<SceneObject>
    requires |colors| >= 2 && start < |colors|
  {
    TranslateAll(Moon(PLANET_RADIUS, bodyColor, Zeroes) + Rings(g, PLANET_RING_RADII, tiltDeg, colors, start), center)
  }

  /** A planet is 73 well-formed objects: first its body, a circle of PLANET_RADIUS at
      `center`, then 72 ring segments. */
  lemma PlanetShape(g: Geometry, colors: seq<Color>, center: Vector, tiltDeg: real,
                    bodyColor: Color, start: nat)
    requires |colors| >= 2 && start < |colors|
    ensures |Planet(g, colors, center, tiltDeg, bodyColor, start)| == PLANET_SIZE
    ensures AllWellFormed(Planet(g, colors, center, tiltDeg, bodyColor, start))
    ensures Planet(g, colors, center, tiltDeg, bodyColor, start)[0].shape == Circle(bodyColor, PLANET_RADIUS)
    ensures Planet(g, colors, center, tiltDeg, bodyColor, start)[0].center == center
    ensures forall k :: 1 <= k < PLANET_SIZE ==>
      Planet(g, colors, center, tiltDeg, bodyColor, start)[k].shape == Line
  {
    var body := Moon(PLANET_RADIUS, bodyColor, Zeroes);
    var rings := Rings(g, PLANET_RING_RADII, tiltDeg, colors, start);
    RingsBlocks(g, PLANET_RING_RADII, tiltDeg, colors, start);
    var all := body + rings;
    assert AllWellFormed(all) by {
      forall k | 0 <= k < |all| ensures WellFormed(all[k]) {
        if k > 0 { assert all[k] == rings[k - 1]; }
      }
    }
    TranslateAllMoves(all, center);
    forall k | 1 <= k < PLANET_SIZE
      ensures Planet(g, colors, center, tiltDeg, bodyColor, start)[k].shape == Line
    {
      assert all[k] == rings[k - 1];
    }
  }

  /** The random draws of one `createObjects` call: the category value, the spawn radius
      and azimuth, and the planet's tilt, the sampled body colour shared by planets and
      moons, and the rings' initial colour index. */
  datatype Draws = Draws(value: real, radius: real, azimuthDeg: real,
                         tiltDeg: real, color: Color, colorStart: nat)

  /** Spawn position: a point on the disc at polar angle 90 degrees, pushed to the far end. */
  function SpawnPoint(g: Geometry, d: Draws): Vector {
    Add(g.toCartesian(Vector(d.radius, g.toRadians(90.0), g.toRadians(d.azimuthDeg))),
        Vector(0.0, 0.0, CYLINDER_Z))
  }

  /** `createObjects`: pick a category by the ordered thresholds. Exactly one branch
      fires: a planet above PLANET_CHANCE, a moon above MOON_CHANCE, a star above
      STAR_CHANCE, and nothing otherwise. */
  function CreateObjects(g: Geometry, p: Palette, d: Draws): (objects: seq<SceneObject>)
    requires PaletteOk(p) && d.colorStart < |p.colors|
    ensures AllWellFormed(objects)
    ensures d.value > PLANET_CHANCE <==> |objects| == PLANET_SIZE
    ensures STAR_CHANCE < d.value <= PLANET_CHANCE <==> |objects| == 1
    ensures d.value <= STAR_CHANCE <==> objects == []
    ensures d.value > PLANET_CHANCE ==>
      objects[0].shape == Circle(d.color, PLANET_RADIUS) && objects[0].center == SpawnPoint(g, d)
    ensures MOON_CHANCE < d.value <= PLANET_CHANCE ==>
      objects[0].shape == Circle(d.color, MOON_RADIUS) && objects[0].stroke == d.color &&
      objects[0].center == SpawnPoint(g, d) && objects[0].vertices == [SpawnPoint(g, d)]
    ensures STAR_CHANCE < d.value <= MOON_CHANCE ==>
      objects[0].shape == Circle(p.star, STAR_RADIUS) && objects[0].stroke == p.star &&
      objects[0].center == SpawnPoint(g, d) && objects[0].vertices == [SpawnPoint(g, d)]
  {
    var cartesian := SpawnPoint(g, d);
    if d.value > PLANET_CHANCE then
      PlanetShape(g, p.colors, cartesian, d.tiltDeg, d.color, d.colorStart);
      Planet(g, p.colors, cartesian, d.tiltDeg, d.color, d.colorStart)
    else if d.value > MOON_CHANCE then
      Moon(MOON_RADIUS, d.color, cartesian)
    else if d.value > STAR_CHANCE then
      Moon(STAR_RADIUS, p.star, cartesian)
    else
      []
  }

  /** A single generation attempt adds at most a planet's worth of objects. */
  lemma CreateObjectsAtMost(g: Geometry, p: Palette, d: Draws)
    requires PaletteOk(p) && d.colorStart < |p.colors|
    ensures |CreateObjects(g, p, d)| in {0, 1, PLANET_SIZE}
  {
  }
}
