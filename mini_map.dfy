/**
 * The trip mini-map: it sorts the history pings by time, drops GPS jitter
 * with a greedy distance filter, and draws one polyline segment per
 * consecutive pair of points, coloured by speed band.
 *
 * The great-circle distance is a parameter `dist` (the source computes it
 * with the haversine formula); nothing is assumed about it.
 */
module MiniMap {
  import opened Js
  import opened Seqs
  import opened Pings

  /** `cleanPings(pings, minDistance = 8)`: the default threshold in metres. */
  const DefaultMinDistance: real := 8.0

  // ---------------------------------------------------------------------------
  // Noise filtering
  // ---------------------------------------------------------------------------

  /**
   * The indices, from `i` on, that the greedy scan keeps when the last kept
   * ping is `p[last]`: a ping is kept when it is at least `minD` away from the
   * last kept one, and then becomes the last kept one.
   */
  function Scan(p: seq<Ping>, last: nat, i: nat, minD: real, dist: (Ping, Ping) -> real): (ks: seq<int>)
    requires last < i <= |p|
    decreases |p| - i
    ensures forall k :: 0 <= k < |ks| ==> i <= ks[k] < |p|
    ensures StrictlyIncreasing(ks)
    ensures |ks| <= |p| - i
  {
    if i == |p| then []
    else if dist(p[last], p[i]) >= minD then [i] + Scan(p, i, i + 1, minD, dist)
    else Scan(p, last, i + 1, minD, dist)
  }

  /** Indices of the pings `cleanPings` keeps: all of a list shorter than 2, else the first and what the scan keeps. */
  function KeptIndices(p: seq<Ping>, minD: real, dist: (Ping, Ping) -> real): (ks: seq<int>)
    ensures forall k :: 0 <= k < |ks| ==> 0 <= ks[k] < |p|
    ensures StrictlyIncreasing(ks)
    ensures |p| >= 1 ==> |ks| >= 1 && ks[0] == 0
    ensures |ks| <= |p|
  {
    if |p| < 2 then seq(|p|, k => k) else [0] + Scan(p, 0, 1, minD, dist)
  }

  /** The pings at the given indices, in index order. */
  function Pick(p: seq<Ping>, ks: seq<int>): (r: seq<Ping>)
    requires forall k :: 0 <= k < |ks| ==> 0 <= ks[k] < |p|
    ensures |r| == |ks|
    ensures forall k :: 0 <= k < |ks| ==> r[k] == p[ks[k]]
  {
    seq(|ks|, k requires 0 <= k < |ks| => p[ks[k]])
  }

  /** What `cleanPings` returns, as a function of its input. */
  function Clean(p: seq<Ping>, minD: real, dist: (Ping, Ping) -> real): (r: seq<Ping>)
    ensures |r| <= |p|
    ensures |p| >= 1 ==> |r| >= 1 && r[0] == p[0]
  {
    Pick(p, KeptIndices(p, minD, dist))
  }

  /** The pings the scan keeps from `i` on, read off directly rather than through indices. */
  function CleanFrom(p: seq<Ping>, last: nat, i: nat, minD: real, dist: (Ping, Ping) -> real): seq<Ping>
    requires last < i <= |p|
    decreases |p| - i
  {
    if i == |p| then []
    else if dist(p[last], p[i]) >= minD then [p[i]] + CleanFrom(p, i, i + 1, minD, dist)
    else CleanFrom(p, last, i + 1, minD, dist)
  }

  /** Picking a list led by `i` gives `p[i]` followed by the rest picked. */
  lemma PickCons(p: seq<Ping>, i: int, ks: seq<int>)
    requires 0 <= i < |p|
    requires forall k :: 0 <= k < |ks| ==> 0 <= ks[k] < |p|
    ensures Pick(p, [i] + ks) == [p[i]] + Pick(p, ks)
  {
    var l := Pick(p, [i] + ks);
    var r := [p[i]] + Pick(p, ks);
    assert |l| == |r|;
    forall k | 0 <= k < |l| ensures l[k] == r[k] {
      if k > 0 {
        assert ([i] + ks)[k] == ks[k - 1];
      }
    }
  }

  /** Picking the scanned indices gives the directly scanned pings. */
  lemma {:induction false} ScanPick(p: seq<Ping>, last: nat, i: nat, minD: real, dist: (Ping, Ping) -> real)
    requires last < i <= |p|
    ensures Pick(p, Scan(p, last, i, minD, dist)) == CleanFrom(p, last, i, minD, dist)
    decreases |p| - i
  {
    if i < |p| {
      if dist(p[last], p[i]) >= minD {
        ScanPick(p, i, i + 1, minD, dist);
        PickCons(p, i, Scan(p, i, i + 1, minD, dist));
      } else {
        ScanPick(p, last, i + 1, minD, dist);
      }
    }
  }

  /** Two or more pings clean to the first one followed by the scan from the second. */
  lemma CleanUnfold(p: seq<Ping>, minD: real, dist: (Ping, Ping) -> real)
    requires |p| >= 2
    ensures Clean(p, minD, dist) == [p[0]] + CleanFrom(p, 0, 1, minD, dist)
  {
    ScanPick(p, 0, 1, minD, dist);
    PickCons(p, 0, Scan(p, 0, 1, minD, dist));
  }

  /** `cleanPings`: the loop that pushes onto `cleaned`. */
  method CleanPings(pings: seq<Ping>, minDistance: real, dist: (Ping, Ping) -> real) returns (cleaned: seq<Ping>)
    ensures cleaned == Clean(pings, minDistance, dist)
  {
    if |pings| < 2 {
      assert Pick(pings, KeptIndices(pings, minDistance, dist)) == pings;
      return pings;
    }
    CleanUnfold(pings, minDistance, dist);
    cleaned := [pings[0]];
    ghost var last := 0;
    var i := 1;
    while i < |pings|
      invariant 0 <= last < i <= |pings|
      invariant |cleaned| >= 1 && cleaned[|cleaned| - 1] == pings[last]
      invariant cleaned + CleanFrom(pings, last, i, minDistance, dist) == Clean(pings, minDistance, dist)
    {
      var lastKept := cleaned[|cleaned| - 1];
      var curr := pings[i];
      if dist(lastKept, curr) >= minDistance {
        assert cleaned + CleanFrom(pings, last, i, minDistance, dist)
            == (cleaned + [curr]) + CleanFrom(pings, i, i + 1, minDistance, dist);
        cleaned := cleaned + [curr];
        last := i;
      }
      i := i + 1;
    }
  }

  /** A list of fewer than two pings is returned as it is. */
  lemma CleanShortInput(p: seq<Ping>, minD: real, dist: (Ping, Ping) -> real)
    requires |p| < 2
    ensures Clean(p, minD, dist) == p
  {
  }

  /** The first ping always survives, as the first output ping. */
  lemma CleanKeepsFirst(p: seq<Ping>, minD: real, dist: (Ping, Ping) -> real)
    requires |p| >= 1
    ensures |Clean(p, minD, dist)| >= 1 && Clean(p, minD, dist)[0] == p[0]
  {
  }

  /** The output is an order-preserving subsequence of the input. */
  lemma CleanIsSubsequence(p: seq<Ping>, minD: real, dist: (Ping, Ping) -> real)
    ensures IsSubsequence(Clean(p, minD, dist), p)
  {
    assert Embeds(KeptIndices(p, minD, dist), Clean(p, minD, dist), p);
  }

  /** Consecutive kept indices (`last` first) are each at least `minD` from their predecessor. */
  lemma {:induction false} ScanSpacing(p: seq<Ping>, last: nat, i: nat, minD: real, dist: (Ping, Ping) -> real, k: nat)
    requires last < i <= |p|
    requires 0 < k < 1 + |Scan(p, last, i, minD, dist)|
    ensures var ls := [last] + Scan(p, last, i, minD, dist);
            dist(p[ls[k - 1]], p[ls[k]]) >= minD
    decreases |p| - i
  {
    if dist(p[last], p[i]) >= minD {
      if k > 1 {
        ScanSpacing(p, i, i + 1, minD, dist, k - 1);
      }
    } else {
      ScanSpacing(p, last, i + 1, minD, dist, k);
    }
  }

  /**
   * A ping the scan skips lies within `minD` of the last ping kept before it:
   * if `j` falls strictly between the kept index `ls[k]` and the next kept one
   * (or the end), then `p[j]` was closer than `minD` to `p[ls[k]]`.
   */
  lemma {:induction false} ScanDropped(p: seq<Ping>, last: nat, i: nat, minD: real, dist: (Ping, Ping) -> real, k: nat, j: nat)
    requires last < i <= |p|
    requires k < 1 + |Scan(p, last, i, minD, dist)|
    requires i <= j < |p|
    requires var ls := [last] + Scan(p, last, i, minD, dist);
             ls[k] < j && (k + 1 < |ls| ==> j < ls[k + 1])
    ensures var ls := [last] + Scan(p, last, i, minD, dist);
            dist(p[ls[k]], p[j]) < minD
    decreases |p| - i
  {
    var rest := Scan(p, last, i, minD, dist);
    if dist(p[last], p[i]) >= minD {
      // ls == [last, i] + ..., so j > i forces k >= 1
      assert rest[0] == i;
      ScanDropped(p, i, i + 1, minD, dist, k - 1, j);
    } else if j == i {
      // every kept index is past i, so ls[k] < j makes ls[k] the index `last`
    } else {
      ScanDropped(p, last, i + 1, minD, dist, k, j);
    }
  }

  /** After the first, each kept ping is at least `minD` from the ping kept before it. */
  lemma CleanSpacing(p: seq<Ping>, minD: real, dist: (Ping, Ping) -> real, k: nat)
    requires |p| >= 2
    requires 0 < k < |Clean(p, minD, dist)|
    ensures dist(Clean(p, minD, dist)[k - 1], Clean(p, minD, dist)[k]) >= minD
  {
    ScanSpacing(p, 0, 1, minD, dist, k);
  }

  /** Each dropped ping was closer than `minD` to the last kept ping when it was examined. */
  lemma CleanDropped(p: seq<Ping>, minD: real, dist: (Ping, Ping) -> real, k: nat, j: nat)
    requires |p| >= 2
    requires var ks := KeptIndices(p, minD, dist);
             k < |ks| && ks[k] < j < |p| && (k + 1 < |ks| ==> j < ks[k + 1])
    ensures dist(p[KeptIndices(p, minD, dist)[k]], p[j]) < minD
  {
    ScanDropped(p, 0, 1, minD, dist, k, j);
  }

  // ---------------------------------------------------------------------------
  // Ordering: `[...pings].sort((a, b) => time(a) - time(b))`
  // ---------------------------------------------------------------------------

  predicate SortedByTime(s: seq<Ping>) {
    forall i, j :: 0 <= i < j < |s| ==> s[i].timestamp <= s[j].timestamp
  }

  /** Inserts `x` before the first element that is not earlier, so equal times keep their order. */
  function InsertByTime(x: Ping, s: seq<Ping>): (r: seq<Ping>)
    requires SortedByTime(s)
    ensures SortedByTime(r)
    ensures multiset(r) == multiset(s) + multiset{x}
    ensures forall k :: 0 <= k < |r| ==> r[k] == x || r[k] in s
  {
    if s == [] || x.timestamp <= s[0].timestamp then [x] + s
    else
      var rest := InsertByTime(x, s[1..]);
      assert s == [s[0]] + s[1..];
      InsertedAfterHead(x, s, rest);
      [s[0]] + rest
  }

  /** Putting the head back in front of the insertion into the tail keeps the order. */
  lemma InsertedAfterHead(x: Ping, s: seq<Ping>, rest: seq<Ping>)
    requires SortedByTime(s) && SortedByTime(rest) && s != []
    requires s[0].timestamp < x.timestamp
    requires forall k :: 0 <= k < |rest| ==> rest[k] == x || rest[k] in s[1..]
    ensures SortedByTime([s[0]] + rest)
  {
    forall k | 0 <= k < |rest| ensures s[0].timestamp <= rest[k].timestamp {
      if rest[k] != x {
        var j :| 0 <= j < |s[1..]| && s[1..][j] == rest[k];
        assert s[j + 1] == rest[k];
      }
    }
    var r := [s[0]] + rest;
    forall i, j | 0 <= i < j < |r| ensures r[i].timestamp <= r[j].timestamp {
      if i > 0 {
        assert r[i] == rest[i - 1] && r[j] == rest[j - 1];
      } else {
        assert r[j] == rest[j - 1];
      }
    }
  }

  /** A stable sort by timestamp, on a copy: the caller's sequence is a value and is not reordered. */
  function SortByTime(s: seq<Ping>): (r: seq<Ping>)
    ensures SortedByTime(r)
    ensures multiset(r) == multiset(s)
  {
    if s == [] then []
    else
      assert s == [s[0]] + s[1..];
      InsertByTime(s[0], SortByTime(s[1..]))
  }

  /** Selects the pings recorded at time `t`. */
  function AtTime(t: int): Ping -> bool {
    (p: Ping) => p.timestamp == t
  }

  /** Inserting `x` puts it in front of every ping with the same time and leaves their order alone. */
  lemma {:induction false} InsertByTimeStable(x: Ping, s: seq<Ping>, t: int)
    requires SortedByTime(s)
    ensures Filter(InsertByTime(x, s), AtTime(t)) ==
            (if x.timestamp == t then [x] else []) + Filter(s, AtTime(t))
  {
    var r := InsertByTime(x, s);
    if s == [] || x.timestamp <= s[0].timestamp {
      assert r == [x] + s && r[1..] == s;
    } else {
      var rest := InsertByTime(x, s[1..]);
      assert r == [s[0]] + rest && r[1..] == rest;
      InsertByTimeStable(x, s[1..], t);
      assert Filter(s, AtTime(t)) == (if s[0].timestamp == t then [s[0]] else []) + Filter(s[1..], AtTime(t));
    }
  }

  /** The sort is stable: the pings of any one time keep their input order. */
  lemma {:induction false} SortByTimeStable(s: seq<Ping>, t: int)
    ensures Filter(SortByTime(s), AtTime(t)) == Filter(s, AtTime(t))
  {
    if s != [] {
      SortByTimeStable(s[1..], t);
      InsertByTimeStable(s[0], SortByTime(s[1..]), t);
      assert Filter(s, AtTime(t)) == (if s[0].timestamp == t then [s[0]] else []) + Filter(s[1..], AtTime(t));
    }
  }

  // ---------------------------------------------------------------------------
  // The drawn path (`path` without the `simplify` step)
  // ---------------------------------------------------------------------------

  /** The cleaned, time-ordered track: empty for fewer than two pings. */
  function Track(pings: seq<Ping>, dist: (Ping, Ping) -> real): (track: seq<Ping>)
    ensures |pings| < 2 ==> track == []
    ensures |pings| >= 2 ==> 1 <= |track| <= |pings|
  {
    if |pings| < 2 then []
    else
      var sorted := SortByTime(pings);
      assert |sorted| == |multiset(sorted)| == |multiset(pings)| == |pings|;
      Clean(sorted, DefaultMinDistance, dist)
  }

  datatype PathPoint = PathPoint(lat: real, lng: real, speed: Nullish<real>)

  /** `path`, one point per track ping. */
  function Path(pings: seq<Ping>, dist: (Ping, Ping) -> real): (path: seq<PathPoint>)
    ensures |pings| < 2 ==> path == []
    ensures |pings| >= 2 ==> |path| >= 1
    ensures |path| == |Track(pings, dist)|
    ensures forall i :: 0 <= i < |path| ==>
              var q := Track(pings, dist)[i]; path[i] == PathPoint(q.lat, q.lng, q.speedKmh)
  {
    var track := Track(pings, dist);
    assert |pings| >= 2 ==> |track| >= 1 by {
      if |pings| >= 2 {
        CleanKeepsFirst(SortByTime(pings), DefaultMinDistance, dist);
      }
    }
    seq(|track|, i requires 0 <= i < |track| => PathPoint(track[i].lat, track[i].lng, track[i].speedKmh))
  }

  /** The track runs forward in time, every point is an input ping, and it starts at an earliest ping. */
  lemma TrackTimeOrdered(pings: seq<Ping>, dist: (Ping, Ping) -> real)
    ensures SortedByTime(Track(pings, dist))
    ensures forall q :: q in Track(pings, dist) ==> q in pings
    ensures |pings| >= 2 ==> forall q :: q in pings ==> Track(pings, dist)[0].timestamp <= q.timestamp
  {
    if |pings| >= 2 {
      var sorted := SortByTime(pings);
      var ks := KeptIndices(sorted, DefaultMinDistance, dist);
      var track := Track(pings, dist);
      assert track == Pick(sorted, ks);
      forall i, j | 0 <= i < j < |track| ensures track[i].timestamp <= track[j].timestamp {
        assert track[i] == sorted[ks[i]] && track[j] == sorted[ks[j]] && ks[i] < ks[j];
      }
      forall q | q in track ensures q in pings {
        var k :| 0 <= k < |track| && track[k] == q;
        assert q == sorted[ks[k]];
        assert q in multiset(sorted);
      }
      forall q | q in pings ensures track[0].timestamp <= q.timestamp {
        assert q in multiset(sorted);
        var j :| 0 <= j < |sorted| && sorted[j] == q;
        assert track[0] == sorted[0];
      }
    }
  }

  /** Consecutive points of the drawn track are at least the 8-metre threshold apart. */
  lemma TrackSpacing(pings: seq<Ping>, dist: (Ping, Ping) -> real, k: nat)
    requires 0 < k < |Track(pings, dist)|
    ensures dist(Track(pings, dist)[k - 1], Track(pings, dist)[k]) >= DefaultMinDistance
  {
    CleanSpacing(SortByTime(pings), DefaultMinDistance, dist, k);
  }

  // ---------------------------------------------------------------------------
  // Speed colouring and segments
  // ---------------------------------------------------------------------------

  const SlowColor := "#00ff99"
  const MediumColor := "#ffd000"
  const FastColor := "#ff4d4d"

  /** `speedToColor(speed = 0)`: green below 10 km/h, yellow below 40, red from 40 on. */
  function SpeedToColor(speed: Nullish<real>): (c: string)
    ensures c == SlowColor <==> CoalesceTo(speed, 0.0) < 10.0
    ensures c == MediumColor <==> 10.0 <= CoalesceTo(speed, 0.0) < 40.0
    ensures c == FastColor <==> 40.0 <= CoalesceTo(speed, 0.0)
  {
    var s := CoalesceTo(speed, 0.0);
    if s < 10.0 then SlowColor else if s < 40.0 then MediumColor else FastColor
  }

  /** The band index of a colour, 0 for slow up to 2 for fast. */
  function BandRank(c: string): int {
    if c == SlowColor then 0 else if c == MediumColor then 1 else 2
  }

  /** A faster speed never falls in a slower band, and an undefined speed is the slow band. */
  lemma SpeedBandsMonotone(a: Nullish<real>, b: Nullish<real>)
    requires CoalesceTo(a, 0.0) <= CoalesceTo(b, 0.0)
    ensures BandRank(SpeedToColor(a)) <= BandRank(SpeedToColor(b))
    ensures SpeedToColor(Undefined) == SlowColor
  {
  }

  datatype Segment = Segment(from: PathPoint, to: PathPoint, color: string)

  /** The polylines drawn: for each `i > 0`, `[path[i-1], path[i]]` coloured by `path[i].speed`. */
  function Segments(path: seq<PathPoint>): (segs: seq<Segment>)
    ensures |segs| == if path == [] then 0 else |path| - 1
    ensures forall i :: 0 <= i < |segs| ==>
              segs[i].from == path[i] && segs[i].to == path[i + 1] && segs[i].color == SpeedToColor(path[i + 1].speed)
  {
    if |path| < 2 then []
    else seq(|path| - 1, i requires 0 <= i < |path| - 1 => Segment(path[i], path[i + 1], SpeedToColor(path[i + 1].speed)))
  }

  /** The segments join up into one line from the start marker to the end marker. */
  lemma SegmentsChain(path: seq<PathPoint>)
    requires |path| >= 2
    ensures Segments(path)[0].from == path[0]
    ensures Segments(path)[|Segments(path)| - 1].to == path[|path| - 1]
    ensures forall i :: 0 <= i < |Segments(path)| - 1 ==> Segments(path)[i].to == Segments(path)[i + 1].from
  {
  }

  // ---------------------------------------------------------------------------
  // Map type
  // ---------------------------------------------------------------------------

  datatype MapType = Roadmap | Satellite | Hybrid

  /**
   * The map type once the restore effect has run: the saved preference when
   * it names one of the three types, otherwise the initial hybrid view.
   * `saved` is what `localStorage.getItem` returned.
   */
  function InitialMapType(saved: Option<string>): (r: MapType)
    ensures saved == Some("roadmap") ==> r == Roadmap
    ensures saved == Some("satellite") ==> r == Satellite
    ensures saved !in {Some("roadmap"), Some("satellite")} ==> r == Hybrid
  {
    match saved
    case Some(s) =>
      if s == "roadmap" then Roadmap
      else if s == "satellite" then Satellite
      else Hybrid
    case None => Hybrid
  }

  /** `onZoomChanged`: zooming to 18 or closer on the road map switches to satellite. */
  function ZoomedMapType(zoom: Nullish<real>, current: MapType): (r: MapType)
    ensures r != current <==> current == Roadmap && zoom.Val? && zoom.v >= 18.0
    ensures r != current ==> r == Satellite
  {
    if TruthyNumber(zoom) && zoom.v >= 18.0 && current == Roadmap then Satellite else current
  }
}
