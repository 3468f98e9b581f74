/** A worked frame: a face mesh with all eight channels at distinct
    indices, driven by one rig and one blendshape list. */
module FrameScenarios {
  import opened Optional
  import opened HeadPose
  import opened Blendshapes
  import opened Expressions
  import opened MeshUpdate
  import opened Frame

  const ExampleDictionary: map<string, nat> :=
    map["Fcl_EYE_Close_L" := 0, "Fcl_EYE_Close_R" := 1,
        "Fcl_MTH_Neutral" := 2, "Fcl_MTH_Angry" := 3, "Fcl_MTH_Fun" := 4,
        "Fcl_MTH_Joy" := 5, "Fcl_MTH_Sorrow" := 6, "Fcl_MTH_Surprised" := 7]

  /** The mouth channel names of the six listed expressions, as the
      example dictionary spells them. */
  lemma ExampleMouthKeys()
    ensures forall j :: 0 <= j < |ExpressionNames| ==>
              MouthKey(ExpressionNames[j]) in ExampleDictionary &&
              ExampleDictionary[MouthKey(ExpressionNames[j])] == j + 2
  {
    assert MouthKey(ExpressionNames[0]) == "Fcl_MTH_Neutral" by {
      assert ExpressionNames[0] == "Neutral";
      assert MouthPrefix + "Neutral" == "Fcl_MTH_Neutral";
    }
    assert MouthKey(ExpressionNames[1]) == "Fcl_MTH_Angry" by {
      assert ExpressionNames[1] == "Angry";
      assert MouthPrefix + "Angry" == "Fcl_MTH_Angry";
    }
    assert MouthKey(ExpressionNames[2]) == "Fcl_MTH_Fun" by {
      assert ExpressionNames[2] == "Fun";
      assert MouthPrefix + "Fun" == "Fcl_MTH_Fun";
    }
    assert MouthKey(ExpressionNames[3]) == "Fcl_MTH_Joy" by {
      assert ExpressionNames[3] == "Joy";
      assert MouthPrefix + "Joy" == "Fcl_MTH_Joy";
    }
    assert MouthKey(ExpressionNames[4]) == "Fcl_MTH_Sorrow" by {
      assert ExpressionNames[4] == "Sorrow";
      assert MouthPrefix + "Sorrow" == "Fcl_MTH_Sorrow";
    }
    assert MouthKey(ExpressionNames[5]) == "Fcl_MTH_Surprised" by {
      assert ExpressionNames[5] == "Surprised";
      assert MouthPrefix + "Surprised" == "Fcl_MTH_Surprised";
    }
  }

  /** The value the example update leaves at one index. */
  lemma ExampleMeshUpdateAt(prior: seq<real>, i: nat)
    requires |prior| == 8 && i < 8
    ensures UpdateMesh(Mesh(ExampleDictionary, prior), 0.9, 0.1, "Joy").influences[i] ==
              (if i == 0 || i == 5 then 1.0 else 0.0)
  {
    ExampleMouthKeys();
    var v := LastWrite(ExampleDictionary, prior, 0.9, 0.1, "Joy", i);
    assert ExampleDictionary[MouthKey("Joy")] == 5 by {
      assert MouthKey("Joy") == MouthKey(ExpressionNames[3]);
    }
    if 2 <= i {
      assert Names(ExampleDictionary, MouthKey(ExpressionNames[i - 2]), i);
    } else {
      assert !ResetTouches(ExampleDictionary, ExpressionNames, i);
      if i == 0 {
        assert Names(ExampleDictionary, EyeCloseLeft, i);
        assert !Names(ExampleDictionary, EyeCloseRight, i);
      } else {
        assert Names(ExampleDictionary, EyeCloseRight, i);
      }
    }
  }

  /** The end-to-end scenario: head estimate `(0, 0.5, 0)`, expression
      `Joy`, left eye score 0.9 and right 0.1, on a face mesh with all eight
      channels at distinct indices (left eye 0, right eye 1, then the six
      expressions in list order, so `Joy` is 5). The head target is
      `(0, 0.4, 0)`, the left eye closes, the right stays open, `Joy` is 1
      and every other expression channel 0, whatever the weights were
      before. */
  lemma FrameScenario(prior: seq<real>)
    requires |prior| == 8
    ensures var bs := [Category("eyeBlinkLeft", 0.9), Category("eyeBlinkRight", 0.1)];
            var scene := [SceneObject(true, Some(Mesh(ExampleDictionary, prior)))];
            var r := RunFrame(Some(Rig(Vec3(0.0, 0.5, 0.0))), bs, "Joy", scene);
      && r.headTarget == Some(Euler(0.0, 0.4, 0.0))
      && |r.scene| == 1 && r.scene[0].morph.Some?
      && r.scene[0].morph.value.dictionary == ExampleDictionary
      && |r.scene[0].morph.value.influences| == 8
      && forall i :: 0 <= i < 8 ==>
           r.scene[0].morph.value.influences[i] == (if i == 0 || i == 5 then 1.0 else 0.0)
  {
    var bs := [Category("eyeBlinkLeft", 0.9), Category("eyeBlinkRight", 0.1)];
    assert FirstNamed(bs, EyeBlinkLeft, 0);
    assert bs[..1] == [bs[0]];
    assert FirstNamed(bs, EyeBlinkRight, 1);
    forall i | 0 <= i < 8 {
      ExampleMeshUpdateAt(prior, i);
    }
  }
}
