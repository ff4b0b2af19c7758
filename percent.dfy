/** `Math.round((done / total) * 100)` computed on exact rationals. */
module Percent {

  /** The integer nearest to `100 * done / total`, halves rounded up (towards +∞), as `Math.round` does. */
  function RoundedPercent(done: int, total: int): (p: int)
    requires total != 0
    ensures total > 0 ==> 2 * total * p - total <= 200 * done < 2 * total * p + total
    ensures total < 0 ==> 2 * total * p + total < 200 * done <= 2 * total * p - total
  {
    var n := 200 * done + total;
    var d := 2 * total;
    if d > 0 then
      var p := n / d;
      assert d * p <= n < d * p + d;
      assert 2 * total * p == d * p;
      p
    else
      var p := (-n) / (-d);
      assert (-d) * p <= -n < (-d) * p - d;
      assert 2 * total * p == d * p;
      p
  }

  lemma MulMonotonic(a: int, b: int, c: int)
    requires a <= b && c >= 0
    ensures a * c <= b * c
  {
  }

  /** For `0 <= done <= total` the percentage lies in [0, 100]; it is 0 when none is done and 100
      when all are done. */
  lemma RoundedPercentRange(done: int, total: int)
    requires 0 <= done <= total && total > 0
    ensures 0 <= RoundedPercent(done, total) <= 100
    ensures done == 0 ==> RoundedPercent(done, total) == 0
    ensures done == total ==> RoundedPercent(done, total) == 100
  {
    var p := RoundedPercent(done, total);
    var d := 2 * total;
    assert d * p - total <= 200 * done < d * p + total;
    if p < 0 {
      MulMonotonic(p, -1, d);
    }
    if p > 100 {
      MulMonotonic(101, p, d);
    }
    if done == 0 && p > 0 {
      MulMonotonic(1, p, d);
    }
    if done == total && p < 100 {
      MulMonotonic(p, 99, d);
    }
  }
}
