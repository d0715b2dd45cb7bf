/**
 * The trip-history panel: the time window a range button selects, and the
 * figures shown over the fetched pings (maximum and average speed, the
 * distance travelled, and the chart coordinates of each ping).
 */
module TripHistory {
  import opened Js
  import opened Pings

  // ---------------------------------------------------------------------------
  // Range and window
  // ---------------------------------------------------------------------------

  /** The hours a range button stands for; any unrecognised range is a day. */
  function RangeHours(range: string): (h: int)
    ensures range == "1h" ==> h == 1
    ensures range == "6h" ==> h == 6
    ensures range != "1h" && range != "6h" ==> h == 24
    ensures h in {1, 6, 24}
  {
    if range == "1h" then 1 else if range == "6h" then 6 else 24
  }

  const MillisPerHour: int := 60 * 60 * 1000

  /**
   * The `[from, to]` window of the history request, in milliseconds. The
   * clock is read twice: `nowFrom` for `from`, then `nowTo` for `to`.
   */
  function HistoryWindow(nowFrom: int, nowTo: int, range: string): (w: (int, int))
    ensures w.1 == nowTo
    ensures nowTo - w.0 == RangeHours(range) * 3600000 + (nowTo - nowFrom)
    // a clock that does not run backwards gives a window at least as long as the range
    ensures nowFrom <= nowTo ==> w.0 < w.1 && w.1 - w.0 >= RangeHours(range) * 3600000
    ensures nowFrom == nowTo ==> w.1 - w.0 == RangeHours(range) * 3600000
  {
    (nowFrom - RangeHours(range) * MillisPerHour, nowTo)
  }

  // ---------------------------------------------------------------------------
  // Speeds
  // ---------------------------------------------------------------------------

  /** `Math.max(...pings.map(p => p.speedKmh ?? 0), 1)`. */
  function MaxSpeed(pings: seq<Ping>): (m: real)
    ensures m >= 1.0
    ensures forall i :: 0 <= i < |pings| ==> SpeedKmh(pings[i]) <= m
    ensures m == 1.0 || exists i :: 0 <= i < |pings| && SpeedKmh(pings[i]) == m
  {
    if pings == [] then 1.0
    else
      var init := pings[..|pings| - 1];
      assert forall i :: 0 <= i < |init| ==> init[i] == pings[i];
      Max(MaxSpeed(init), SpeedKmh(pings[|pings| - 1]))
  }

  /** `pings.reduce((s, p) => s + (p.speedKmh ?? 0), 0)`. */
  function SpeedSum(pings: seq<Ping>): real {
    if pings == [] then 0.0 else SpeedSum(pings[..|pings| - 1]) + SpeedKmh(pings[|pings| - 1])
  }

  /** The shown average: none ("–") for no pings, else the mean speed. */
  function AvgSpeed(pings: seq<Ping>): (avg: Option<real>)
    ensures avg.None? <==> pings == []
    ensures avg.Some? ==> avg.value * (|pings| as real) == SpeedSum(pings)
  {
    if |pings| == 0 then None else Some(SpeedSum(pings) / (|pings| as real))
  }

  /** A sum of `n` speeds each at most `m` is at most `n * m`. */
  lemma {:induction false} SpeedSumAtMost(pings: seq<Ping>, m: real)
    requires forall i :: 0 <= i < |pings| ==> SpeedKmh(pings[i]) <= m
    ensures SpeedSum(pings) <= (|pings| as real) * m
  {
    if pings != [] {
      var init := pings[..|pings| - 1];
      assert forall i :: 0 <= i < |init| ==> init[i] == pings[i];
      SpeedSumAtMost(init, m);
      assert (|pings| as real) * m == (|init| as real) * m + m;
    }
  }

  /** A sum of speeds none of which is negative is not negative. */
  lemma {:induction false} SpeedSumNonnegative(pings: seq<Ping>)
    requires forall i :: 0 <= i < |pings| ==> SpeedKmh(pings[i]) >= 0.0
    ensures SpeedSum(pings) >= 0.0
  {
    if pings != [] {
      var init := pings[..|pings| - 1];
      assert forall i :: 0 <= i < |init| ==> init[i] == pings[i];
      SpeedSumNonnegative(init);
    }
  }

  /** Dividing both sides by a positive number keeps an inequality. */
  lemma CancelPositive(a: real, b: real, n: real)
    requires n > 0.0 && a * n <= b * n
    ensures a <= b
  {
  }

  /** A number whose product with a positive number is not negative is not negative. */
  lemma ProductNonnegative(q: real, n: real)
    requires n > 0.0 && q * n >= 0.0
    ensures q >= 0.0
  {
  }

  /** A number whose product with a positive `n` is a sum of at most `n * m` is at most `m`. */
  lemma QuotientBound(q: real, sum: real, n: real, m: real)
    requires n > 0.0 && q * n == sum && sum <= n * m
    ensures q <= m
  {
    assert q * n <= m * n;
    CancelPositive(q, m, n);
  }

  /** Dividing by a positive number keeps the order of the dividends. */
  lemma QuotientMonotone(a: real, b: real, m: real)
    requires a <= b && m > 0.0
    ensures a / m <= b / m
  {
    var qa, qb := a / m, b / m;
    assert qa * m == a && qb * m == b;
    CancelPositive(qa, qb, m);
  }

  /** A quotient by a positive number no smaller than the dividend is at most 1, and not negative for a nonnegative dividend. */
  lemma QuotientAtMostOne(s: real, m: real)
    requires s <= m && m > 0.0
    ensures s / m <= 1.0
    ensures s >= 0.0 ==> s / m >= 0.0
    ensures s == m ==> s / m == 1.0
  {
    var q := s / m;
    assert q * m == s;
    CancelPositive(q, 1.0, m);
    if s >= 0.0 {
      ProductNonnegative(q, m);
    }
    if s == m {
      assert (q - 1.0) * m == q * m - m;
      assert (q - 1.0) * m == 0.0;
    }
  }

  /** The average never exceeds the maximum the chart scales by. */
  lemma AvgBelowMax(pings: seq<Ping>)
    requires pings != []
    ensures AvgSpeed(pings).value <= MaxSpeed(pings)
  {
    var m := MaxSpeed(pings);
    SpeedSumAtMost(pings, m);
    QuotientBound(AvgSpeed(pings).value, SpeedSum(pings), |pings| as real, m);
  }

  /** With no negative speed the average is not negative. */
  lemma AvgNonnegative(pings: seq<Ping>)
    requires pings != []
    requires forall i :: 0 <= i < |pings| ==> SpeedKmh(pings[i]) >= 0.0
    ensures AvgSpeed(pings).value >= 0.0
  {
    SpeedSumNonnegative(pings);
    ProductNonnegative(AvgSpeed(pings).value, |pings| as real);
  }

  // ---------------------------------------------------------------------------
  // Distance
  // ---------------------------------------------------------------------------

  /**
   * The running total after the reduce callback has seen indices `0 .. n-1`,
   * starting from 0. At index 0 the callback returns 0; at index `i` it adds
   * the leg from ping `i-1` to ping `i`. `leg` is the equirectangular step in
   * kilometres.
   */
  function Accumulate(pings: seq<Ping>, leg: (Ping, Ping) -> real, n: nat): (total: real)
    requires n <= |pings|
    ensures n <= 1 ==> total == 0.0
    ensures (forall a, b :: leg(a, b) >= 0.0) ==> total >= 0.0
  {
    if n == 0 then 0.0
    else
      var total := Accumulate(pings, leg, n - 1);
      var i := n - 1;
      if i == 0 then 0.0 else total + leg(pings[i - 1], pings[i])
  }

  /** The shown distance: 0 below two pings, else the reduce's result. */
  function Distance(pings: seq<Ping>, leg: (Ping, Ping) -> real): (d: real)
    ensures |pings| < 2 ==> d == 0.0
    ensures (forall a, b :: leg(a, b) >= 0.0) ==> d >= 0.0
  {
    if |pings| < 2 then 0.0 else Accumulate(pings, leg, |pings|)
  }

  /** The reference definition: the sum of the legs between consecutive pings. */
  function LegSum(pings: seq<Ping>, leg: (Ping, Ping) -> real): (d: real)
    ensures |pings| < 2 ==> d == 0.0
    ensures (forall a, b :: leg(a, b) >= 0.0) ==> d >= 0.0
  {
    if |pings| < 2 then 0.0
    else LegSum(pings[..|pings| - 1], leg) + leg(pings[|pings| - 2], pings[|pings| - 1])
  }

  lemma {:induction false} AccumulateIsLegSum(pings: seq<Ping>, leg: (Ping, Ping) -> real, n: nat)
    requires 1 <= n <= |pings|
    ensures Accumulate(pings, leg, n) == LegSum(pings[..n], leg)
  {
    if n > 1 {
      AccumulateIsLegSum(pings, leg, n - 1);
      var p := pings[..n];
      assert p[..n - 1] == pings[..n - 1];
      assert p[n - 2] == pings[n - 2] && p[n - 1] == pings[n - 1];
    }
  }

  /** The reduce, with its special case at index 0, computes exactly the sum of consecutive legs. */
  lemma DistanceIsLegSum(pings: seq<Ping>, leg: (Ping, Ping) -> real)
    ensures Distance(pings, leg) == LegSum(pings, leg)
    ensures |pings| < 2 ==> Distance(pings, leg) == 0.0
    ensures (forall a, b :: leg(a, b) >= 0.0) ==> Distance(pings, leg) >= 0.0
  {
    if |pings| >= 2 {
      AccumulateIsLegSum(pings, leg, |pings|);
      assert pings[..|pings|] == pings;
    }
  }

  // ---------------------------------------------------------------------------
  // Chart coordinates
  // ---------------------------------------------------------------------------

  /** The x coordinate `i / (n - 1) * 100` percent; a single ping divides 0 by 0, which is `NaN`. */
  function ChartX(i: nat, n: nat): (x: Option<real>)
    requires i < n
    ensures x.None? <==> n == 1
    ensures x.Some? ==> 0.0 <= x.value <= 100.0
    ensures x.Some? && i == 0 ==> x.value == 0.0
    ensures x.Some? && i == n - 1 ==> x.value == 100.0
  {
    if n == 1 then None else Some((i as real) / ((n - 1) as real) * 100.0)
  }

  /** Chart x coordinates increase strictly along the pings. */
  lemma ChartXIncreasing(i: nat, j: nat, n: nat)
    requires i < j < n
    ensures ChartX(i, n).value < ChartX(j, n).value
  {
    var d := (n - 1) as real;
    assert (i as real) / d < (j as real) / d;
  }

  /** The y coordinate `(1 - s / maxSpeed) * 80` percent of ping `i`. */
  function ChartY(pings: seq<Ping>, i: nat): (y: real)
    requires i < |pings|
    ensures y >= 0.0
    ensures SpeedKmh(pings[i]) >= 0.0 ==> y <= 80.0
    ensures SpeedKmh(pings[i]) == MaxSpeed(pings) ==> y == 0.0
  {
    var s := SpeedKmh(pings[i]);
    var m := MaxSpeed(pings);
    QuotientAtMostOne(s, m);
    (1.0 - s / m) * 80.0
  }

  /** A faster ping never plots lower: the y coordinate falls as the speed rises. */
  lemma ChartYAntitone(pings: seq<Ping>, i: nat, j: nat)
    requires i < |pings| && j < |pings|
    requires SpeedKmh(pings[i]) <= SpeedKmh(pings[j])
    ensures ChartY(pings, j) <= ChartY(pings, i)
  {
    var m := MaxSpeed(pings);
    QuotientMonotone(SpeedKmh(pings[i]), SpeedKmh(pings[j]), m);
  }
}
