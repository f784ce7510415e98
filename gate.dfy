/** The species gate: a photo goes on to identification only if the general classifier saw a cow. */
module Gate {

  /** The ImageNet labels accepted as a cow. */
  predicate IsTargetLabel(name: string) {
    name == "ox" || name == "cow"
  }

  /**
   * `any(pred[1] == 'ox' or pred[1] == 'cow' for pred in decoded_predictions)` over the
   * labels of the classifier's top predictions (three of them in the handler).
   */
  function IsCow(topLabels: seq<string>): (accepted: bool)
    ensures accepted <==> exists i :: 0 <= i < |topLabels| && IsTargetLabel(topLabels[i])
  {
    if topLabels == [] then false
    else if IsTargetLabel(topLabels[0]) then true
    else
      var rest := IsCow(topLabels[1..]);
      assert forall i :: 1 <= i < |topLabels| ==> topLabels[i] == topLabels[1..][i - 1];
      rest
  }
}
