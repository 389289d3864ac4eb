/**
 * The "first maximum" choice made by `numpy.argmax` and `torch.argmax` over a score vector:
 * the lowest index whose score is maximal. Scores are abstract reals; the embedding model
 * and the cosine similarity that produce them are not part of this model.
 */
module Selection {

  /** The first index of a maximal score. Both libraries raise on an empty vector. */
  function FirstArgMax(scores: seq<real>): (k: nat)
    requires |scores| > 0
    ensures k < |scores|
    ensures forall i :: 0 <= i < |scores| ==> scores[i] <= scores[k]
    ensures forall i :: 0 <= i < k ==> scores[i] < scores[k]
  {
    if |scores| == 1 then 0
    else
      var j := FirstArgMax(scores[..|scores| - 1]);
      if scores[|scores| - 1] > scores[j] then |scores| - 1 else j
  }

  /** The two properties above pick out exactly one index. */
  lemma FirstArgMaxUnique(scores: seq<real>, k: nat)
    requires k < |scores|
    requires forall i :: 0 <= i < |scores| ==> scores[i] <= scores[k]
    requires forall i :: 0 <= i < k ==> scores[i] < scores[k]
    ensures FirstArgMax(scores) == k
  {
  }
}
