/** The two queries the callers make of the k-d tree over atom coordinates, stated as
    brute-force searches over the points the tree is built from. */
module SpatialIndex {

  /** A coordinate triple; floating point is idealised as `real`. */
  datatype Point = Point(x: real, y: real, z: real)

  /** Squared Euclidean distance. */
  function Dist2(p: Point, q: Point): real {
    var dx, dy, dz := p.x - q.x, p.y - q.y, p.z - q.z;
    dx * dx + dy * dy + dz * dz
  }

  /** A squared distance is never negative, is zero between equal points,
      and does not depend on the order of its arguments. */
  lemma Dist2Metric(p: Point, q: Point)
    ensures Dist2(p, q) >= 0.0
    ensures Dist2(p, q) == Dist2(q, p)
    ensures p == q ==> Dist2(p, q) == 0.0
  {
    var dx, dy, dz := p.x - q.x, p.y - q.y, p.z - q.z;
    assert dx * dx >= 0.0 && dy * dy >= 0.0 && dz * dz >= 0.0;
    assert (q.x - p.x) * (q.x - p.x) == dx * dx;
    assert (q.y - p.y) * (q.y - p.y) == dy * dy;
    assert (q.z - p.z) * (q.z - p.z) == dz * dz;
  }

  /** `findByDistance(query_point=q, distance=r2)`: the positions of the points whose
      SQUARED distance to `q` is below `r2`, in increasing order (the tree reports them as
      an unordered collection; every caller only iterates over it). */
  function FindByDistance(pts: seq<Point>, q: Point, r2: real): (r: seq<nat>)
    ensures forall k :: 0 <= k < |r| ==> r[k] < |pts|
    ensures forall i: nat :: i in r <==> i < |pts| && Dist2(pts[i], q) < r2
  {
    if pts == [] then []
    else
      var r' := FindByDistance(pts[..|pts| - 1], q, r2);
      assert forall i :: 0 <= i < |pts| - 1 ==> pts[..|pts| - 1][i] == pts[i];
      if Dist2(pts[|pts| - 1], q) < r2 then r' + [|pts| - 1] else r'
  }

  /** Strictly increasing, so each position occurs at most once. */
  predicate Increasing(s: seq<nat>) {
    forall k, m :: 0 <= k < m < |s| ==> s[k] < s[m]
  }

  /** The positions come in increasing order, each point at most once. */
  lemma {:induction false} FindByDistanceOrdered(pts: seq<Point>, q: Point, r2: real)
    ensures Increasing(FindByDistance(pts, q, r2))
  {
    if pts != [] {
      var pts' := pts[..|pts| - 1];
      FindByDistanceOrdered(pts', q, r2);
      var r' := FindByDistance(pts', q, r2);
      if Dist2(pts[|pts| - 1], q) < r2 {
        var r := r' + [|pts| - 1];
        assert FindByDistance(pts, q, r2) == r;
        forall k, m | 0 <= k < m < |r| ensures r[k] < r[m] {
          if m < |r'| {
            assert r[k] == r'[k] && r[m] == r'[m];
          } else {
            assert r[k] == r'[k] < |pts'|;
          }
        }
      }
    }
  }

  /** `findNearest(query_point=q, num=1)`: the position of the point closest to `q`,
      ties going to the earliest point. */
  function FindNearest(pts: seq<Point>, q: Point): (k: nat)
    requires |pts| > 0
    ensures k < |pts|
    ensures forall i :: 0 <= i < |pts| ==> Dist2(pts[k], q) <= Dist2(pts[i], q)
    ensures forall i :: 0 <= i < k ==> Dist2(pts[k], q) < Dist2(pts[i], q)
  {
    if |pts| == 1 then 0
    else
      var k' := FindNearest(pts[..|pts| - 1], q);
      if Dist2(pts[|pts| - 1], q) < Dist2(pts[k'], q) then |pts| - 1 else k'
  }

  /** The nearest point is closer than a bound exactly when some point is. */
  lemma NearestWithin(pts: seq<Point>, q: Point, bound: real)
    requires |pts| > 0
    ensures Dist2(pts[FindNearest(pts, q)], q) < bound <==>
            exists i :: 0 <= i < |pts| && Dist2(pts[i], q) < bound
  {
  }
}
