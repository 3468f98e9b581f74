/** Reading the face-shape scores of one frame and turning the two eye
    scores into binary blink weights (src/App.tsx:76-96). */
module Blendshapes {
  import opened Optional

  /** One entry of the blendshape list: a named category and its score. */
  datatype Category = Category(categoryName: string, score: real)

  const EyeBlinkLeft: string := "eyeBlinkLeft"
  const EyeBlinkRight: string := "eyeBlinkRight"

  /** A score strictly above this closes the eye. */
  const BlinkThreshold: real := 0.4

  /** No entry of `bs` carries the name `name`. */
  predicate Absent(bs: seq<Category>, name: string) {
    forall j :: 0 <= j < |bs| ==> bs[j].categoryName != name
  }

  /** `j` is the first entry of `bs` named `name`. */
  predicate FirstNamed(bs: seq<Category>, name: string, j: int) {
    && 0 <= j < |bs|
    && bs[j].categoryName == name
    && Absent(bs[..j], name)
  }

  /** `Array.find` by category name: the first matching entry, if any. */
  function Find(bs: seq<Category>, name: string): (r: Option<nat>)
    ensures r.None? <==> Absent(bs, name)
    ensures r.Some? ==> FirstNamed(bs, name, r.value)
  {
    if |bs| == 0 then None
    else if bs[0].categoryName == name then Some(0)
    else
      match Find(bs[1..], name)
      case None => None
      case Some(j) =>
        assert bs[1..][..j] == bs[1..j + 1];
        Some(j + 1)
  }

  /** `find(...)?.score || 0`: the score of the first entry with the given
      name, and 0 when the list has no such entry. */
  function Score(bs: seq<Category>, name: string): (s: real)
    ensures Absent(bs, name) ==> s == 0.0
    ensures forall j :: FirstNamed(bs, name, j) ==> s == bs[j].score
  {
    match Find(bs, name)
    case None => 0.0
    case Some(j) => bs[j].score
  }

  /** The blink weight written for one eye: 1 when the score is strictly
      above the threshold and 0 otherwise, never anything in between. */
  function BlinkWeight(score: real): (w: real)
    ensures w == 0.0 || w == 1.0
    ensures w == 1.0 <==> score > BlinkThreshold
  {
    if score > BlinkThreshold then 1.0 else 0.0
  }

  /** A category missing from the list reads as 0, so its eye stays open. */
  lemma MissingCategoryKeepsEyeOpen(bs: seq<Category>, name: string)
    requires Absent(bs, name)
    ensures BlinkWeight(Score(bs, name)) == 0.0
  {
  }

  /** The loop form of `Array.find(...)?.score || 0`, scanning from the front
      and stopping at the first match. */
  method FindScore(bs: seq<Category>, name: string) returns (s: real)
    ensures s == Score(bs, name)
  {
    var i := 0;
    while i < |bs|
      invariant 0 <= i <= |bs|
      invariant Absent(bs[..i], name)
    {
      if bs[i].categoryName == name {
        assert FirstNamed(bs, name, i);
        return bs[i].score;
      }
      assert bs[..i + 1] == bs[..i] + [bs[i]];
      i := i + 1;
    }
    assert bs[..i] == bs;
    return 0.0;
  }
}
