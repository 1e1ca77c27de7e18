/**
  The offline averaging tool: merges a pattern-score table with an older
  one by replacing the score of every pattern the two share with the
  average of its two scores, truncated towards zero.
*/
module MeanEval {

  /** Python's `int(x / 2)`: half of `x`, truncated towards zero. */
  function HalfTowardZero(x: int): (h: int)
    ensures x >= 0 ==> 0 <= x - 2 * h <= 1
    ensures x < 0 ==> -1 <= x - 2 * h <= 0
  {
    if x >= 0 then x / 2 else -((-x) / 2)
  }

  /** `int((b + o) / 2)`. */
  function Average(b: int, o: int): int {
    HalfTowardZero(b + o)
  }

  /** The average lies between the two scores, and does not depend on their order. */
  lemma AverageBetween(b: int, o: int)
    ensures (if b <= o then b else o) <= Average(b, o) <= (if b <= o then o else b)
    ensures Average(b, o) == Average(o, b)
  {
  }

  /** The score the merge gives pattern `k` of the base table. */
  function MergedScore(baseScores: map<string, int>, oldScores: map<string, int>, k: string): int
    requires k in baseScores
  {
    if k in oldScores then Average(baseScores[k], oldScores[k]) else baseScores[k]
  }

  /**
    `merge_and_average_scores`: with either table empty the base table is
    returned as it is; otherwise a copy of the base table in which every
    pattern also in the old table has the average of its two scores. The
    base table itself is a value and is never changed.
  */
  method MergeAndAverageScores(baseScores: map<string, int>, oldScores: map<string, int>)
    returns (finalScores: map<string, int>)
    ensures finalScores.Keys == baseScores.Keys
    ensures baseScores == map[] || oldScores == map[] ==> finalScores == baseScores
    ensures baseScores != map[] && oldScores != map[] ==>
              forall k :: k in baseScores ==> finalScores[k] == MergedScore(baseScores, oldScores, k)
  {
    if baseScores == map[] || oldScores == map[] {
      return baseScores;
    }
    finalScores := baseScores;
    var remaining := baseScores.Keys;
    while remaining != {}
      invariant remaining <= baseScores.Keys
      invariant finalScores.Keys == baseScores.Keys
      invariant forall k :: k in remaining ==> finalScores[k] == baseScores[k]
      invariant forall k :: k in baseScores && k !in remaining ==> finalScores[k] == MergedScore(baseScores, oldScores, k)
      decreases remaining
    {
      var state :| state in remaining;
      var baseScore := finalScores[state];
      if state in oldScores {
        var oldScore := oldScores[state];
        finalScores := finalScores[state := Average(baseScore, oldScore)];
      }
      remaining := remaining - {state};
    }
  }
}
