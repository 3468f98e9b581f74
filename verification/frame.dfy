/** One invocation of the per-frame rule of the avatar component
    (src/App.tsx:65-113): nothing happens until the face solver has
    produced a rig; then the head target is computed, and when the frame
    carries blendshape scores every skinned mesh with a morph dictionary
    gets the blink and expression update. The scene walk is modelled as the
    list of objects in traversal order. */
module Frame {
  import opened Optional
  import opened HeadPose
  import opened Blendshapes
  import opened Expressions
  import opened MeshUpdate
  import MeshProperties

  /** The solved face rig; only its head estimate is read. */
  datatype Rig = Rig(head: Vec3)

  /** An object of the scene graph: whether it is a skinned mesh, and its
      morph targets when it has a morph dictionary. */
  datatype SceneObject = SceneObject(isSkinnedMesh: bool, morph: Option<Mesh>)

  /** What a frame produces: the head target angles (when a rig exists) and
      the scene after the morph writes. */
  datatype FrameResult = FrameResult(headTarget: Option<Euler>, scene: seq<SceneObject>)

  /** The traversal's filter: a skinned mesh that has a morph dictionary. */
  predicate HasMorphTargets(o: SceneObject) {
    o.isSkinnedMesh && o.morph.Some?
  }

  predicate ObjectValid(o: SceneObject) {
    HasMorphTargets(o) ==> Valid(o.morph.value)
  }

  predicate SceneValid(scene: seq<SceneObject>) {
    forall j :: 0 <= j < |scene| ==> ObjectValid(scene[j])
  }

  /** The traversal callback for one object: the morph update when the
      filter admits it, nothing otherwise. */
  function UpdateObject(o: SceneObject, left: real, right: real, expression: string): (o': SceneObject)
    requires ObjectValid(o)
    ensures ObjectValid(o')
    ensures o'.isSkinnedMesh == o.isSkinnedMesh && o'.morph.Some? == o.morph.Some?
    ensures !HasMorphTargets(o) ==> o' == o
    ensures HasMorphTargets(o) ==> o'.morph.value.dictionary == o.morph.value.dictionary
  {
    if HasMorphTargets(o) then o.(morph := Some(UpdateMesh(o.morph.value, left, right, expression)))
    else o
  }

  /** `scene.traverse(...)`: every object is updated on its own, so the walk
      is a map over the objects in traversal order. */
  function Traverse(scene: seq<SceneObject>, left: real, right: real, expression: string): (r: seq<SceneObject>)
    requires SceneValid(scene)
    ensures |r| == |scene| && SceneValid(r)
    ensures forall j :: 0 <= j < |scene| ==> r[j] == UpdateObject(scene[j], left, right, expression)
    decreases |scene|
  {
    if |scene| == 0 then []
    else [UpdateObject(scene[0], left, right, expression)] + Traverse(scene[1..], left, right, expression)
  }

  /** One frame. Without a rig the frame changes nothing at all, even when
      blendshape scores are present; with a rig the head target is the
      clamped estimate, and the morph block runs only for a non-empty
      blendshape list, with the two eye scores looked up once for the whole
      walk. */
  function RunFrame(rig: Option<Rig>, blendshapes: seq<Category>, expression: string,
                    scene: seq<SceneObject>): (r: FrameResult)
    requires SceneValid(scene)
    ensures |r.scene| == |scene| && SceneValid(r.scene)
    ensures rig.None? ==> r == FrameResult(None, scene)
    ensures rig.Some? ==> r.headTarget == Some(HeadTarget(rig.value.head))
    ensures |blendshapes| == 0 ==> r.scene == scene
    ensures rig.Some? && |blendshapes| > 0 ==>
              forall j :: 0 <= j < |scene| ==>
                r.scene[j] == UpdateObject(scene[j], Score(blendshapes, EyeBlinkLeft),
                                           Score(blendshapes, EyeBlinkRight), expression)
  {
    if rig.None? then FrameResult(None, scene)
    else
      var target := HeadTarget(rig.value.head);
      if |blendshapes| == 0 then FrameResult(Some(target), scene)
      else
        var left := Score(blendshapes, EyeBlinkLeft);
        var right := Score(blendshapes, EyeBlinkRight);
        FrameResult(Some(target), Traverse(scene, left, right, expression))
  }

  /** Running a frame a second time on its own output, with the same rig,
      scores and expression, yields the same result. */
  lemma FrameIdempotent(rig: Option<Rig>, blendshapes: seq<Category>, expression: string,
                        scene: seq<SceneObject>)
    requires SceneValid(scene)
    ensures var once := RunFrame(rig, blendshapes, expression, scene);
      RunFrame(rig, blendshapes, expression, once.scene) == once
  {
    var once := RunFrame(rig, blendshapes, expression, scene);
    var twice := RunFrame(rig, blendshapes, expression, once.scene);
    if rig.Some? && |blendshapes| > 0 {
      var left := Score(blendshapes, EyeBlinkLeft);
      var right := Score(blendshapes, EyeBlinkRight);
      forall j | 0 <= j < |scene|
        ensures twice.scene[j] == once.scene[j]
      {
        if HasMorphTargets(scene[j]) {
          MeshProperties.UpdateIdempotent(scene[j].morph.value, left, right, expression);
        }
      }
      assert twice.scene == once.scene;
    }
  }
}
