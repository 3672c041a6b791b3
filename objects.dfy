/** Scene objects, the geometry helpers the model treats as uninterpreted,
    and the colour palette. */
module Objects {
  import opened Vectors

  type Color = string

  /** The `type` tag of an object, with the fields only circles carry. */
  datatype Shape = Line | Circle(fill: Color, radius: real)

  /** One paintable object: `vertices` are its geometry, `center` drives depth order and fade. */
  datatype SceneObject = SceneObject(
    shape: Shape,
    vertices: seq<Vector>,
    center: Vector,
    stroke: Color,
    opacity: real)

  /** A line has its two endpoints, a circle its one centre point: what painting indexes. */
  predicate WellFormed(o: SceneObject) {
    match o.shape
    case Line => |o.vertices| == 2
    case Circle(_, _) => |o.vertices| == 1
  }

  predicate AllWellFormed(s: seq<SceneObject>) {
    forall i :: 0 <= i < |s| ==> WellFormed(s[i])
  }

  /** The same object moved by `offset`: every vertex and the centre, nothing else. */
  function Translate(o: SceneObject, offset: Vector): SceneObject {
    o.(vertices := seq(|o.vertices|, i requires 0 <= i < |o.vertices| => Add(o.vertices[i], offset)),
       center := Add(o.center, offset))
  }

  /** Moving by an offset and back by its negation restores the object. */
  lemma TranslateRoundTrip(o: SceneObject, offset: Vector)
    ensures Translate(Translate(o, offset), Negate(offset)) == o
  {
    var t := Translate(Translate(o, offset), Negate(offset));
    assert |t.vertices| == |o.vertices|;
    forall i | 0 <= i < |o.vertices| ensures t.vertices[i] == o.vertices[i] {
      AddNegateCancels(o.vertices[i], offset);
    }
    AddNegateCancels(o.center, offset);
  }

  /** Geometry the model does not interpret: degree-to-radian conversion, the
      spherical-to-Cartesian isomorphism, applying the perspective matrix (given as the
      list of Y-rotation angles composed into it so far), and the camera projection. */
  datatype Geometry = Geometry(
    toRadians: real -> real,
    toCartesian: Vector -> Vector,
    transform: (seq<real>, Vector) -> Vector,
    project: Vector -> Point)

  /** COLORS and STAR_COLOR. */
  datatype Palette = Palette(colors: seq<Color>, star: Color)

  /** The ring colour stride takes indices modulo `|colors| - 1`, so at least two colours. */
  predicate PaletteOk(p: Palette) {
    |p.colors| >= 2
  }
}
