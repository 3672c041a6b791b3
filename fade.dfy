/** Visibility cull and distance fade (public/javascripts/main.js:155-165, 203, 208). */
module Fade {
  import opened Objects
  import opened Dimensions

  /** Width of the fade band at each end of the cylinder (`offset` in `getOpacity`). */
  const FADE_MARGIN: real := 10.0

  /** Linear rescale of `v` from [fromLo, fromHi] to [toLo, toHi], unclamped: the
      model's reading of the library's `remap`. */
  function Remap(v: real, fromLo: real, fromHi: real, toLo: real, toHi: real): real
    requires fromLo < fromHi
  {
    toLo + (v - fromLo) * (toHi - toLo) / (fromHi - fromLo)
  }

  /** `getOpacity(z)`: a ramp up from the far end, full opacity in the interior, a ramp
      down to the near end. Inside the cylinder it is always in (0, 1]. */
  function Opacity(z: real): (a: real)
    ensures -CYLINDER_Z < z < CYLINDER_Z ==> 0.0 < a <= 1.0
    ensures -CYLINDER_Z + FADE_MARGIN <= z <= CYLINDER_Z - FADE_MARGIN ==> a == 1.0
  {
    if z < -CYLINDER_Z + FADE_MARGIN then
      Remap(z, -CYLINDER_Z, -CYLINDER_Z + FADE_MARGIN, 0.0, 1.0)
    else if z > CYLINDER_Z - FADE_MARGIN then
      1.0 - Remap(z, CYLINDER_Z - FADE_MARGIN, CYLINDER_Z, 0.0, 1.0)
    else
      1.0
  }

  /** The three pieces of the fade, in closed form. */
  lemma OpacityPieces(z: real)
    ensures z < -10.0 ==> Opacity(z) == (z + 20.0) / 10.0
    ensures -10.0 <= z <= 10.0 ==> Opacity(z) == 1.0
    ensures z > 10.0 ==> Opacity(z) == 1.0 - (z - 10.0) / 10.0
  {
  }

  /** The ramps are strictly monotone and meet 0 and 1 at the band's ends. */
  lemma OpacityRamps(z1: real, z2: real)
    ensures -CYLINDER_Z <= z1 < z2 <= -CYLINDER_Z + FADE_MARGIN ==> Opacity(z1) < Opacity(z2)
    ensures CYLINDER_Z - FADE_MARGIN <= z1 < z2 <= CYLINDER_Z ==> Opacity(z1) > Opacity(z2)
    ensures Opacity(-CYLINDER_Z) == 0.0 && Opacity(-CYLINDER_Z + FADE_MARGIN) == 1.0
    ensures Opacity(CYLINDER_Z - FADE_MARGIN) == 1.0 && Opacity(CYLINDER_Z) == 0.0
  {
  }

  /** The cull test of `render`: painted only while the world z is strictly inside. */
  predicate Visible(o: SceneObject) {
    o.center.z < CYLINDER_Z && o.center.z > -CYLINDER_Z
  }

  /** The objects of `s` that pass the cull, in their order in `s`. */
  function VisibleOnes(s: seq<SceneObject>): (r: seq<SceneObject>)
    ensures |r| <= |s|
    ensures forall k :: 0 <= k < |r| ==> Visible(r[k])
  {
    if s == [] then []
    else
      var last := s[|s| - 1];
      VisibleOnes(s[..|s| - 1]) + (if Visible(last) then [last] else [])
  }

  /** An object is kept exactly when it is in `s` and visible, and the kept objects
      stay well-formed. */
  lemma {:induction false} VisibleOnesMembers(s: seq<SceneObject>)
    ensures forall o :: o in VisibleOnes(s) <==> o in s && Visible(o)
    ensures AllWellFormed(s) ==> AllWellFormed(VisibleOnes(s))
  {
    if s != [] {
      var front := s[..|s| - 1];
      VisibleOnesMembers(front);
      assert s == front + [s[|s| - 1]];
    }
  }
}
