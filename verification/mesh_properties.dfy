/** Properties of the per-mesh morph update: the expression channels are
    one-hot, the blink channels are binary thresholds, the result does not
    depend on the previous weights of the channels it writes, and running
    the update twice is the same as running it once. */
module MeshProperties {
  import opened Blendshapes
  import opened Expressions
  import opened MeshUpdate

  /** After the update, the selected expression's channel is 1 when
      present, and every other present `Fcl_MTH_*` channel of the list whose
      index differs from the selected one is 0, whatever the weights were
      before. The selection need not be one of the listed names. */
  lemma ExpressionOneHot(m: Mesh, left: real, right: real, expression: string)
    requires Valid(m)
    ensures var r := UpdateMesh(m, left, right, expression).influences;
      && (MouthKey(expression) in m.dictionary ==> r[m.dictionary[MouthKey(expression)]] == 1.0)
      && (forall j ::
            (0 <= j < |ExpressionNames| && MouthKey(ExpressionNames[j]) in m.dictionary &&
             !Names(m.dictionary, MouthKey(expression), m.dictionary[MouthKey(ExpressionNames[j])])) ==>
              r[m.dictionary[MouthKey(ExpressionNames[j])]] == 0.0)
  {
  }

  /** With all six expression channels present at six distinct indices and
      a listed expression selected, exactly the selected channel is 1 and
      the other five are 0. */
  lemma ExactlyOneExpressionChannel(m: Mesh, left: real, right: real, expression: string)
    requires Valid(m)
    requires expression in ExpressionNames
    requires forall j :: 0 <= j < |ExpressionNames| ==> MouthKey(ExpressionNames[j]) in m.dictionary
    requires forall j, k :: 0 <= j < k < |ExpressionNames| ==>
               m.dictionary[MouthKey(ExpressionNames[j])] != m.dictionary[MouthKey(ExpressionNames[k])]
    ensures var r := UpdateMesh(m, left, right, expression).influences;
      forall j :: 0 <= j < |ExpressionNames| ==>
        r[m.dictionary[MouthKey(ExpressionNames[j])]] == if ExpressionNames[j] == expression then 1.0 else 0.0
  {
  }

  /** Each blink channel ends at the thresholded score of its eye unless a
      later write of the same update reuses its index: the right channel
      and the expression channels for the left eye, the expression
      channels for the right eye. */
  lemma BlinkChannels(m: Mesh, left: real, right: real, expression: string)
    requires Valid(m)
    ensures var dict := m.dictionary;
            var r := UpdateMesh(m, left, right, expression).influences;
      && (EyeCloseLeft in dict &&
          !Names(dict, EyeCloseRight, dict[EyeCloseLeft]) &&
          !ResetTouches(dict, ExpressionNames, dict[EyeCloseLeft]) &&
          !Names(dict, MouthKey(expression), dict[EyeCloseLeft]) ==>
            r[dict[EyeCloseLeft]] == BlinkWeight(left))
      && (EyeCloseRight in dict &&
          !ResetTouches(dict, ExpressionNames, dict[EyeCloseRight]) &&
          !Names(dict, MouthKey(expression), dict[EyeCloseRight]) ==>
            r[dict[EyeCloseRight]] == BlinkWeight(right))
  {
  }

  /** Two meshes with the same dictionary and as many influences agree,
      after the update, on every index the update writes: the written
      values do not depend on the weights they overwrite. */
  lemma UpdateIgnoresPriorWeights(m1: Mesh, m2: Mesh, left: real, right: real, expression: string)
    requires Valid(m1) && Valid(m2)
    requires m1.dictionary == m2.dictionary
    requires |m1.influences| == |m2.influences|
    ensures forall i :: 0 <= i < |m1.influences| && Touched(m1.dictionary, expression, i) ==>
              UpdateMesh(m1, left, right, expression).influences[i] ==
              UpdateMesh(m2, left, right, expression).influences[i]
  {
  }

  /** Running the update a second time with the same inputs changes
      nothing. */
  lemma UpdateIdempotent(m: Mesh, left: real, right: real, expression: string)
    requires Valid(m)
    ensures var once := UpdateMesh(m, left, right, expression);
      UpdateMesh(once, left, right, expression) == once
  {
  }
}
