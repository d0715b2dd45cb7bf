/** The top-bar counters over the technician array. */
module StatsBar {
  import opened Js
  import opened Seqs
  import opened Fleet

  predicate IsOnline(t: Technician) {
    t.inShift
  }

  /** Moving means a speed strictly above 2 km/h, a missing speed counting as 0. */
  predicate IsMoving(t: Technician) {
    Speed(t) > 2.0
  }

  /** `online`: the technicians with `inShift === true`, shown as `online/total`. */
  function Online(ts: seq<Technician>): (n: nat)
    ensures n <= |ts|
    ensures n == |Filter(ts, IsOnline)|
    ensures n == |ts| <==> forall k :: 0 <= k < |ts| ==> ts[k].inShift
    ensures n == 0 <==> forall k :: 0 <= k < |ts| ==> !ts[k].inShift
  {
    Count(ts, IsOnline)
  }

  /** `moving`: the technicians faster than 2 km/h. */
  function Moving(ts: seq<Technician>): (n: nat)
    ensures n <= |ts|
    ensures n == |Filter(ts, IsMoving)|
    ensures n == 0 <==> forall k :: 0 <= k < |ts| ==> Speed(ts[k]) <= 2.0
  {
    Count(ts, IsMoving)
  }

  /** A technician at exactly 2 km/h is not counted as moving. */
  lemma TwoIsNotMoving(ts: seq<Technician>)
    requires forall k :: 0 <= k < |ts| ==> Speed(ts[k]) == 2.0
    ensures Moving(ts) == 0
  {
  }

  /** `technicians.reduce((mx, v) => Math.max(mx, speed(v)), 0)`. */
  function TopSpeed(ts: seq<Technician>): (m: real)
    ensures m >= 0.0
    ensures forall k :: 0 <= k < |ts| ==> Speed(ts[k]) <= m
    // the maximum is attained, or every speed is at most 0 and the seed 0 stands
    ensures m == 0.0 || exists k :: 0 <= k < |ts| && Speed(ts[k]) == m
    ensures ts == [] ==> m == 0.0
  {
    if ts == [] then 0.0
    else
      var init := ts[..|ts| - 1];
      assert forall k :: 0 <= k < |init| ==> init[k] == ts[k];
      Max(TopSpeed(init), Speed(ts[|ts| - 1]))
  }
}
