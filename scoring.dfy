/**
 * Grading a finished session (`getStars` in src/types/index.ts): the share of
 * correct answers, as a percentage, turned into one to three stars.
 */
module Scoring {

  /**
   * `getStars(score, total)`: `pct = (score / total) * 100`, then 3 stars
   * from 90, 2 from 60, otherwise 1.  Division by a zero total follows the
   * language's floating point: a positive score gives Infinity (3 stars), a
   * zero score NaN and a negative one -Infinity (both 1 star).
   */
  function GetStars(score: int, total: int): (stars: int)
    ensures 1 <= stars <= 3
    ensures total > 0 ==> (stars == 3 <==> score * 100 >= 90 * total)
    ensures total > 0 ==> (stars == 2 <==> 60 * total <= score * 100 < 90 * total)
    ensures total > 0 ==> (stars == 1 <==> score * 100 < 60 * total)
  {
    if total == 0 then
      (if score > 0 then 3 else 1)
    else
      var pct := (score as real / total as real) * 100.0;
      ThresholdByCrossMultiplying(score, total, 90);
      ThresholdByCrossMultiplying(score, total, 60);
      if pct >= 90.0 then 3
      else if pct >= 60.0 then 2
      else 1
  }

  /** For a positive total, comparing the percentage with a threshold is comparing score × 100 with threshold × total. */
  lemma ThresholdByCrossMultiplying(score: int, total: int, threshold: int)
    requires total != 0
    ensures total > 0 ==>
              ((score as real / total as real) * 100.0 >= threshold as real <==> score * 100 >= threshold * total)
  {
    if total > 0 {
      var t := total as real;
      var share := score as real / t;
      assert share * t == score as real;
      assert (share * 100.0) * t == (score * 100) as real;
      assert (threshold * total) as real == threshold as real * t;
      if share * 100.0 >= threshold as real {
        assert (share * 100.0) * t >= threshold as real * t;
      } else {
        assert (share * 100.0) * t < threshold as real * t;
      }
    }
  }

  /** A higher score out of the same total never earns fewer stars. */
  lemma StarsMonotone(low: int, high: int, total: int)
    requires total > 0 && low <= high
    ensures GetStars(low, total) <= GetStars(high, total)
  {
    assert low * 100 <= high * 100;
  }

  /** The grades of a ten-question session. */
  lemma StarsOutOfTen()
    ensures GetStars(10, 10) == 3 && GetStars(9, 10) == 3
    ensures GetStars(6, 10) == 2 && GetStars(5, 10) == 1 && GetStars(0, 10) == 1
  {
  }
}
