/** The fixed list of expressions, the morph-target names derived from
    them, and the user's expression selection (src/App.tsx:18, :136,
    :241-242). */
module Expressions {

  /** The `expressions` list, in the order the reset loop visits it. */
  const ExpressionNames: seq<string> := ["Neutral", "Angry", "Fun", "Joy", "Sorrow", "Surprised"]

  /** The expression selected before any button is pressed. */
  const InitialExpression: string := "Neutral"

  const MouthPrefix: string := "Fcl_MTH_"

  /** The morph-target name of an expression, `Fcl_MTH_<exp>`. */
  function MouthKey(exp: string): (k: string)
    ensures |k| == |MouthPrefix| + |exp|
    ensures k[..|MouthPrefix|] == MouthPrefix && k[|MouthPrefix|..] == exp
  {
    MouthPrefix + exp
  }

  /** The list holds six pairwise distinct names, the initial selection
      among them, each naming its own `Fcl_MTH_` channel. */
  lemma ExpressionListDistinct()
    ensures |ExpressionNames| == 6
    ensures InitialExpression == ExpressionNames[0]
    ensures forall j, k :: 0 <= j < k < |ExpressionNames| ==> ExpressionNames[j] != ExpressionNames[k]
    ensures forall j, k :: 0 <= j < k < |ExpressionNames| ==>
              MouthKey(ExpressionNames[j]) != MouthKey(ExpressionNames[k])
  {
  }

  /** Distinct expressions name distinct morph targets. */
  lemma MouthKeyInjective(a: string, b: string)
    requires MouthKey(a) == MouthKey(b)
    ensures a == b
  {
    assert a == MouthKey(a)[|MouthPrefix|..];
  }

  /** The six names are pairwise distinct, so exactly one button of the
      expression panel is marked active for a selected expression. */
  lemma ExactlyOneActiveButton(exp: string)
    requires exp in ExpressionNames
    ensures exists k :: 0 <= k < |ExpressionNames| && ExpressionNames[k] == exp
    ensures forall k, k' ::
              (0 <= k < |ExpressionNames| && 0 <= k' < |ExpressionNames| &&
               ExpressionNames[k] == exp && ExpressionNames[k'] == exp) ==> k == k'
  {
  }

  /** The selection after the user presses the expression buttons `clicks`
      (button `k` is the `k`-th name of the list) starting from `current`:
      every press replaces the selection by that button's name. */
  function Replay(current: string, clicks: seq<nat>): (e: string)
    requires forall j :: 0 <= j < |clicks| ==> clicks[j] < |ExpressionNames|
    ensures current in ExpressionNames ==> e in ExpressionNames
    ensures |clicks| == 0 ==> e == current
    ensures |clicks| > 0 ==> e == ExpressionNames[clicks[|clicks| - 1]]
    decreases |clicks|
  {
    if |clicks| == 0 then current
    else Replay(ExpressionNames[clicks[0]], clicks[1..])
  }

  /** The selection after the presses `clicks` from the start of the app:
      `Neutral` until a button is pressed, and always one of the six listed
      expressions. */
  function SelectionAfter(clicks: seq<nat>): (e: string)
    requires forall j :: 0 <= j < |clicks| ==> clicks[j] < |ExpressionNames|
    ensures e in ExpressionNames
    ensures |clicks| == 0 ==> e == "Neutral"
  {
    Replay(InitialExpression, clicks)
  }
}
