/** The head target of the per-frame rule: the raw head estimate of the
    solved face rig is clamped axis by axis into a safe range before it is
    turned into a rotation (src/App.tsx:69). The rotation itself is not
    modelled; the model stops at the Euler triple. */
module HeadPose {
  import opened Clamp

  /** The head estimate `rig.head` produced by the face solver. */
  datatype Vec3 = Vec3(x: real, y: real, z: real)

  /** The Euler angles handed to the quaternion construction. */
  datatype Euler = Euler(x: real, y: real, z: real)

  /** Every axis is clamped to `[-HeadLimit, HeadLimit]` radians. */
  const HeadLimit: real := 0.4

  predicate InLimit(a: real) {
    -HeadLimit <= a <= HeadLimit
  }

  /** The target angles: the x axis is negated before clamping (the nod is
      mirrored), y and z are clamped as they are. */
  function HeadTarget(head: Vec3): (e: Euler)
    ensures InLimit(e.x) && InLimit(e.y) && InLimit(e.z)
    ensures InLimit(-head.x) ==> e.x == -head.x
    ensures InLimit(head.y) ==> e.y == head.y
    ensures InLimit(head.z) ==> e.z == head.z
  {
    Euler(Remap(head.x * -1.0, -HeadLimit, HeadLimit),
          Remap(head.y, -HeadLimit, HeadLimit),
          Remap(head.z, -HeadLimit, HeadLimit))
  }

  /** Out-of-range estimates saturate at the bound on their own side, so an
      arbitrarily large input never rotates the head past the limit. */
  lemma HeadTargetSaturates(head: Vec3)
    ensures -head.x > HeadLimit ==> HeadTarget(head).x == HeadLimit
    ensures -head.x < -HeadLimit ==> HeadTarget(head).x == -HeadLimit
    ensures head.y > HeadLimit ==> HeadTarget(head).y == HeadLimit
    ensures head.y < -HeadLimit ==> HeadTarget(head).y == -HeadLimit
    ensures head.z > HeadLimit ==> HeadTarget(head).z == HeadLimit
    ensures head.z < -HeadLimit ==> HeadTarget(head).z == -HeadLimit
  {
  }

  /** The estimate `{x: 10, y: 10, z: 10}` yields the clamped triple
      `(-0.4, 0.4, 0.4)`. */
  lemma HeadTargetFarOutside()
    ensures HeadTarget(Vec3(10.0, 10.0, 10.0)) == Euler(-0.4, 0.4, 0.4)
  {
  }
}
