/** The population advance of `render` (public/javascripts/main.js:219-227): shift every
    object toward the camera, drop those past the far end, and top up when below the cap. */
module Population {
  import opened Vectors
  import opened Objects
  import opened Dimensions
  import Generator

  /** An upper bound on the population the code can reach: a list one short of the
      cap may still receive a whole planet. */
  const POPULATION_CEILING: nat := NUM_OBJECTS - 1 + Generator.PLANET_SIZE

  /** One object after the per-frame move: centre and every vertex lose DZ in z. */
  function Shift(o: SceneObject): SceneObject {
    o.(center := Subtract(o.center, Vector(0.0, 0.0, DZ)),
       vertices := seq(|o.vertices|, i requires 0 <= i < |o.vertices| =>
                         Subtract(o.vertices[i], Vector(0.0, 0.0, DZ))))
  }

  /** Only z moves: x, y, shape, stroke, fill, radius and opacity are kept, and the
      per-frame move is translation by (0, 0, -DZ). */
  lemma ShiftMovesOnlyZ(o: SceneObject)
    ensures Shift(o).shape == o.shape && Shift(o).stroke == o.stroke && Shift(o).opacity == o.opacity
    ensures Shift(o).center == Vector(o.center.x, o.center.y, o.center.z - DZ)
    ensures |Shift(o).vertices| == |o.vertices|
    ensures forall i :: 0 <= i < |o.vertices| ==>
      Shift(o).vertices[i] == Vector(o.vertices[i].x, o.vertices[i].y, o.vertices[i].z - DZ)
    ensures Shift(o) == Translate(o, Vector(0.0, 0.0, -DZ))
    ensures WellFormed(o) ==> WellFormed(Shift(o))
  {
    assert Shift(o).vertices == Translate(o, Vector(0.0, 0.0, -DZ)).vertices;
  }

  /** The `map` of the advance. */
  function ShiftAll(s: seq<SceneObject>): seq<SceneObject> {
    seq(|s|, i requires 0 <= i < |s| => Shift(s[i]))
  }

  predicate Survives(o: SceneObject) {
    o.center.z > -CYLINDER_Z
  }

  /** `[o]` when `o` survives, `[]` otherwise. */
  function KeepIfSurvives(o: SceneObject): seq<SceneObject> {
    if Survives(o) then [o] else []
  }

  /** The `filter` of the advance. */
  function Survivors(s: seq<SceneObject>): seq<SceneObject> {
    if s == [] then [] else KeepIfSurvives(s[0]) + Survivors(s[1..])
  }

  /** `objects.map(shift).filter(survives)`. */
  function Advance(s: seq<SceneObject>): seq<SceneObject> {
    Survivors(ShiftAll(s))
  }

  lemma {:induction false} SurvivorsAppend(a: seq<SceneObject>, b: seq<SceneObject>)
    ensures Survivors(a + b) == Survivors(a) + Survivors(b)
  {
    if a == [] {
      assert a + b == b;
    } else {
      var ab := a + b;
      assert ab[0] == a[0] && ab[1..] == a[1..] + b;
      SurvivorsAppend(a[1..], b);
      calc {
        Survivors(ab);
        KeepIfSurvives(a[0]) + Survivors(a[1..] + b);
        KeepIfSurvives(a[0]) + (Survivors(a[1..]) + Survivors(b));
        (KeepIfSurvives(a[0]) + Survivors(a[1..])) + Survivors(b);
      }
    }
  }

  /** The advance works object by object and keeps relative order: it distributes over
      concatenation, and on one object it keeps the shifted object exactly when it
      survives. These two facts determine `Advance` completely. */
  lemma AdvanceOrder(a: seq<SceneObject>, b: seq<SceneObject>, o: SceneObject)
    ensures Advance(a + b) == Advance(a) + Advance(b)
    ensures Advance([o]) == if Shift(o).center.z > -CYLINDER_Z then [Shift(o)] else []
  {
    assert ShiftAll(a + b) == ShiftAll(a) + ShiftAll(b);
    SurvivorsAppend(ShiftAll(a), ShiftAll(b));
    assert ShiftAll([o]) == [Shift(o)];
    assert [Shift(o)][1..] == [];
    assert Survivors([Shift(o)]) == KeepIfSurvives(Shift(o)) + Survivors([]);
  }

  lemma {:induction false} SurvivorsMember(s: seq<SceneObject>, x: SceneObject)
    ensures x in Survivors(s) <==> x in s && Survives(x)
  {
    if s != [] {
      SurvivorsMember(s[1..], x);
      assert s == [s[0]] + s[1..];
    }
  }

  /** The survivors are exactly the shifted objects whose centre is past -CYLINDER_Z;
      there are never more of them than before. */
  lemma AdvanceMembers(s: seq<SceneObject>, x: SceneObject)
    ensures x in Advance(s) <==>
      exists i :: 0 <= i < |s| && x == Shift(s[i]) && Shift(s[i]).center.z > -CYLINDER_Z
  {
    SurvivorsMember(ShiftAll(s), x);
    if x in ShiftAll(s) {
      var i :| 0 <= i < |s| && ShiftAll(s)[i] == x;
      assert x == Shift(s[i]);
    }
    if exists i :: 0 <= i < |s| && x == Shift(s[i]) && Shift(s[i]).center.z > -CYLINDER_Z {
      var i :| 0 <= i < |s| && x == Shift(s[i]) && Shift(s[i]).center.z > -CYLINDER_Z;
      assert ShiftAll(s)[i] == x;
    }
  }

  /** The advance never grows the list, and keeps every object when none crosses the
      far end. */
  lemma AdvanceLength(s: seq<SceneObject>)
    ensures |Advance(s)| <= |s|
    ensures (forall i :: 0 <= i < |s| ==> s[i].center.z - DZ > -CYLINDER_Z) ==> Advance(s) == ShiftAll(s)
  {
    SurvivorsLength(ShiftAll(s));
    if forall i :: 0 <= i < |s| ==> s[i].center.z - DZ > -CYLINDER_Z {
      var t := ShiftAll(s);
      forall i | 0 <= i < |t| ensures Survives(t[i]) {
        assert t[i] == Shift(s[i]);
      }
      SurvivorsAll(t);
    }
  }

  lemma {:induction false} SurvivorsLength(s: seq<SceneObject>)
    ensures |Survivors(s)| <= |s|
  {
    if s != [] {
      SurvivorsLength(s[1..]);
    }
  }

  /** When nothing crosses the far end, the advance only shifts. */
  lemma {:induction false} SurvivorsAll(s: seq<SceneObject>)
    requires forall i :: 0 <= i < |s| ==> Survives(s[i])
    ensures Survivors(s) == s
  {
    if s != [] {
      SurvivorsAll(s[1..]);
      assert s == [s[0]] + s[1..];
    }
  }

  lemma AdvanceWellFormed(s: seq<SceneObject>)
    requires AllWellFormed(s)
    ensures AllWellFormed(Advance(s))
  {
    var a := Advance(s);
    forall k | 0 <= k < |a| ensures WellFormed(a[k]) {
      AdvanceMembers(s, a[k]);
      var i :| 0 <= i < |s| && a[k] == Shift(s[i]) && Shift(s[i]).center.z > -CYLINDER_Z;
      ShiftMovesOnlyZ(s[i]);
    }
  }

  /** Top-up: one generation attempt's objects are appended only below the cap. */
  function Replenish(live: seq<SceneObject>, created: seq<SceneObject>): seq<SceneObject> {
    if |live| < NUM_OBJECTS then live + created else live
  }

  /** The population never exceeds POPULATION_CEILING (199 + 73) once it starts under it,
      since one attempt adds at most a planet. */
  lemma PopulationBound(s: seq<SceneObject>, created: seq<SceneObject>)
    requires |s| <= POPULATION_CEILING && |created| <= Generator.PLANET_SIZE
    ensures |Replenish(Advance(s), created)| <= POPULATION_CEILING
  {
    AdvanceLength(s);
  }

  /** The cap is not strict: 199 interior objects plus a planet spawned in the same
      frame give 272 objects, more than NUM_OBJECTS. */
  lemma CapNotStrict(g: Geometry, p: Palette, d: Generator.Draws)
    requires PaletteOk(p) && d.colorStart < |p.colors| && d.value > PLANET_CHANCE
    ensures var star := SceneObject(Circle(p.star, STAR_RADIUS), [Zeroes], Zeroes, p.star, 1.0);
      |Replenish(Advance(seq(NUM_OBJECTS - 1, i => star)), Generator.CreateObjects(g, p, d))|
        == POPULATION_CEILING > NUM_OBJECTS
  {
    var star := SceneObject(Circle(p.star, STAR_RADIUS), [Zeroes], Zeroes, p.star, 1.0);
    var s := seq(NUM_OBJECTS - 1, i => star);
    assert forall i :: 0 <= i < |s| ==> s[i].center.z - DZ > -CYLINDER_Z;
    AdvanceLength(s);
    var a := Advance(s);
    assert |a| == NUM_OBJECTS - 1;
    var created := Generator.CreateObjects(g, p, d);
    assert |created| == Generator.PLANET_SIZE;
    assert Replenish(a, created) == a + created;
  }
}
