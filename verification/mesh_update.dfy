/** The per-mesh morph-weight update of the frame rule (src/App.tsx:84-110):
    two blink channels, then a reset of every expression channel, then the
    selected expression channel, each written only when the mesh's morph
    dictionary has the key. Writes replay the source's order, so when two
    keys share an index the later write wins. */
module MeshUpdate {
  import opened Blendshapes
  import opened Expressions

  /** A mesh with morph targets: the `morphTargetDictionary` (name to
      index) and the `morphTargetInfluences` array. */
  datatype Mesh = Mesh(dictionary: map<string, nat>, influences: seq<real>)

  /** Every index of `dict` addresses one of `n` influences; the source
      assumes this when it writes through the dictionary's indices. */
  predicate IndicesInRange(dict: map<string, nat>, n: nat) {
    forall k :: k in dict ==> dict[k] < n
  }

  predicate Valid(m: Mesh) {
    IndicesInRange(m.dictionary, |m.influences|)
  }

  const EyeCloseLeft: string := "Fcl_EYE_Close_L"
  const EyeCloseRight: string := "Fcl_EYE_Close_R"

  /** `key` is present in `dict` and maps to index `i`. */
  predicate Names(dict: map<string, nat>, key: string, i: int) {
    key in dict && dict[key] == i
  }

  /** Index `i` is named by the channel of some expression of `exps`. */
  predicate ResetTouches(dict: map<string, nat>, exps: seq<string>, i: int) {
    exists j :: 0 <= j < |exps| && Names(dict, MouthKey(exps[j]), i)
  }

  /** Index `i` is written by the update for the selected `expression`:
      it is named by a blink key, a listed expression's key or the selected
      expression's key. */
  predicate Touched(dict: map<string, nat>, expression: string, i: int) {
    || Names(dict, EyeCloseLeft, i)
    || Names(dict, EyeCloseRight, i)
    || ResetTouches(dict, ExpressionNames, i)
    || Names(dict, MouthKey(expression), i)
  }

  /** `if (index !== undefined) influences[index] = v`. */
  function SetIfPresent(dict: map<string, nat>, infl: seq<real>, key: string, v: real): (r: seq<real>)
    requires IndicesInRange(dict, |infl|)
    ensures |r| == |infl|
    ensures key in dict ==> r[dict[key]] == v
    ensures forall i :: 0 <= i < |infl| && !Names(dict, key, i) ==> r[i] == infl[i]
  {
    if key in dict then infl[dict[key] := v] else infl
  }

  /** The reset loop: zero the channel of every expression of `exps`, in
      order, skipping names the dictionary lacks. Every channel it names
      ends at 0 and every other influence is left alone. */
  function ResetExpressions(dict: map<string, nat>, infl: seq<real>, exps: seq<string>): (r: seq<real>)
    requires IndicesInRange(dict, |infl|)
    ensures |r| == |infl|
    ensures forall i :: 0 <= i < |infl| && ResetTouches(dict, exps, i) ==> r[i] == 0.0
    ensures forall i :: 0 <= i < |infl| && !ResetTouches(dict, exps, i) ==> r[i] == infl[i]
    decreases |exps|
  {
    if |exps| == 0 then infl
    else
      ResetExpressions(dict, SetIfPresent(dict, infl, MouthKey(exps[0]), 0.0), exps[1..])
  }

  /** The value index `i` holds after the morph block, read off without
      replaying the writes: the last key in write order that names `i`
      decides it, and an index no present key names keeps `infl[i]`. */
  function LastWrite(dict: map<string, nat>, infl: seq<real>,
                     left: real, right: real, expression: string, i: nat): real
    requires i < |infl|
  {
    if Names(dict, MouthKey(expression), i) then 1.0
    else if ResetTouches(dict, ExpressionNames, i) then 0.0
    else if Names(dict, EyeCloseRight, i) then BlinkWeight(right)
    else if Names(dict, EyeCloseLeft, i) then BlinkWeight(left)
    else infl[i]
  }

  /** The morph block for one mesh, on its influences: left blink, right
      blink, reset of all six expression channels, selected channel. The
      result is the "last write wins" table: an index takes the value of
      the last write that names it, and keeps its old value if none does. */
  function UpdateInfluences(dict: map<string, nat>, infl: seq<real>,
                            left: real, right: real, expression: string): (r: seq<real>)
    requires IndicesInRange(dict, |infl|)
    ensures |r| == |infl|
    ensures forall i :: 0 <= i < |infl| ==> r[i] == LastWrite(dict, infl, left, right, expression, i)
  {
    var s1 := SetIfPresent(dict, infl, EyeCloseLeft, BlinkWeight(left));
    var s2 := SetIfPresent(dict, s1, EyeCloseRight, BlinkWeight(right));
    var s3 := ResetExpressions(dict, s2, ExpressionNames);
    SetIfPresent(dict, s3, MouthKey(expression), 1.0)
  }

  /** The update of one mesh, given the frame's two eye scores and the
      selected expression. The dictionary is unchanged; influences that no
      present key names keep their values; every written influence is 0 or
      1; the selected expression's channel, when present, ends at 1. */
  function UpdateMesh(m: Mesh, left: real, right: real, expression: string): (m': Mesh)
    requires Valid(m)
    ensures m'.dictionary == m.dictionary && Valid(m')
    ensures |m'.influences| == |m.influences|
    ensures forall i :: 0 <= i < |m.influences| && !Touched(m.dictionary, expression, i) ==>
              m'.influences[i] == m.influences[i]
    ensures forall i :: 0 <= i < |m.influences| && Touched(m.dictionary, expression, i) ==>
              m'.influences[i] == 0.0 || m'.influences[i] == 1.0
    ensures MouthKey(expression) in m.dictionary ==>
              m'.influences[m.dictionary[MouthKey(expression)]] == 1.0
  {
    m.(influences := UpdateInfluences(m.dictionary, m.influences, left, right, expression))
  }

  /** The morph block as the source writes it: statement by statement on
      the influences, with the reset as a `for` loop over the list.
      It computes exactly the functional update. */
  method UpdateMeshStepwise(m: Mesh, left: real, right: real, expression: string)
    returns (influences: seq<real>)
    requires Valid(m)
    ensures influences == UpdateMesh(m, left, right, expression).influences
  {
    var dict := m.dictionary;
    influences := m.influences;
    if EyeCloseLeft in dict {
      influences := influences[dict[EyeCloseLeft] := BlinkWeight(left)];
    }
    if EyeCloseRight in dict {
      influences := influences[dict[EyeCloseRight] := BlinkWeight(right)];
    }
    ghost var afterBlink := influences;
    for k := 0 to |ExpressionNames|
      invariant |influences| == |m.influences|
      invariant ResetExpressions(dict, influences, ExpressionNames[k..]) ==
                ResetExpressions(dict, afterBlink, ExpressionNames)
    {
      var key := MouthKey(ExpressionNames[k]);
      if key in dict {
        influences := influences[dict[key] := 0.0];
      }
    }
    var current := MouthKey(expression);
    if current in dict {
      influences := influences[dict[current] := 1.0];
    }
  }
}
