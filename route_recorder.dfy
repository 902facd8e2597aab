/** RecordRoute: consume a stream of points and summarise the trip. The feature
    lookup (`checkFeature`), the haversine distance (`getDistance`) and the
    elapsed wall-clock seconds are parameters. */
module RouteRecorder {
  import opened Messages

  /** A distance in metres; `getDistance` never returns a negative value. */
  type Meters = r: real | r >= 0.0

  const Two31: int := 0x8000_0000
  const Two32: int := 0x1_0000_0000

  /** The number of points whose looked-up feature has a name. */
  function FeatureCount(points: seq<Point>, lookup: Point -> Feature): (n: nat)
    ensures n <= |points|
  {
    if points == [] then 0
    else
      var last := points[|points| - 1];
      FeatureCount(points[..|points| - 1], lookup) + (if lookup(last).name != "" then 1 else 0)
  }

  /** The length of the path through `points`: one leg per point after the
      first, from the point before it. */
  function PathLength(points: seq<Point>, dist: (Point, Point) -> Meters): (d: real)
    ensures d >= 0.0
  {
    if |points| < 2 then 0.0
    else
      var n := |points| - 1;
      PathLength(points[..n], dist) + dist(points[n - 1], points[n])
  }

  /** The same sum, taken from the first leg forwards. */
  function LegsFrom(points: seq<Point>, dist: (Point, Point) -> Meters): real
  {
    if |points| < 2 then 0.0 else dist(points[0], points[1]) + LegsFrom(points[1..], dist)
  }

  /** JavaScript's `x | 0` on a finite number: truncate toward zero, then wrap
      into the signed 32-bit range. */
  function ToInt32(x: real): (n: int)
    ensures -Two31 <= n < Two31
    ensures (n - Truncate(x)) % Two32 == 0
  {
    var t := Truncate(x) % Two32;
    if t >= Two31 then t - Two32 else t
  }

  /** Rounding toward zero: the whole part of `x`, keeping its sign. */
  function Truncate(x: real): (t: int)
    ensures x >= 0.0 ==> 0 <= t && t as real <= x < t as real + 1.0
    ensures x < 0.0 ==> t <= 0 && t as real - 1.0 < x <= t as real
  {
    if x >= 0.0 then x.Floor else -((-x).Floor)
  }

  /** A count is additive over concatenated streams of points. */
  lemma {:induction false} FeatureCountAppend(a: seq<Point>, b: seq<Point>, lookup: Point -> Feature)
    ensures FeatureCount(a + b, lookup) == FeatureCount(a, lookup) + FeatureCount(b, lookup)
  {
    if b != [] {
      var n := |b| - 1;
      assert (a + b)[..|a + b| - 1] == a + b[..n];
      FeatureCountAppend(a, b[..n], lookup);
    } else {
      assert a + b == a;
    }
  }

  /** Every point counts as a feature exactly when every lookup finds one. */
  lemma {:induction false} FeatureCountAll(points: seq<Point>, lookup: Point -> Feature)
    ensures FeatureCount(points, lookup) == |points| <==> forall i :: 0 <= i < |points| ==> lookup(points[i]).name != ""
  {
    if points != [] {
      var n := |points| - 1;
      FeatureCountAll(points[..n], lookup);
      assert forall i :: 0 <= i < n ==> points[..n][i] == points[i];
    }
  }

  /** Joining two paths adds the leg from the end of the first to the start of
      the second. */
  lemma {:induction false} PathLengthAppend(a: seq<Point>, b: seq<Point>, dist: (Point, Point) -> Meters)
    requires a != [] && b != []
    ensures PathLength(a + b, dist) == PathLength(a, dist) + dist(a[|a| - 1], b[0]) + PathLength(b, dist)
  {
    var ab := a + b;
    var n := |ab| - 1;
    if |b| == 1 {
      assert ab[..n] == a;
    } else {
      var m := |b| - 1;
      assert ab[..n] == a + b[..m];
      PathLengthAppend(a, b[..m], dist);
      assert b[..m][0] == b[0];
    }
  }

  /** The backward and forward sums over consecutive pairs agree. */
  lemma {:induction false} PathLengthIsSumOfLegs(points: seq<Point>, dist: (Point, Point) -> Meters)
    ensures PathLength(points, dist) == LegsFrom(points, dist)
  {
    if |points| >= 2 {
      var rest := points[1..];
      PathLengthIsSumOfLegs(rest, dist);
      PathLengthAppend([points[0]], rest, dist);
      assert [points[0]] + rest == points;
    }
  }

  /** Below 2^31 metres the reported distance is the whole number of metres;
      from 2^31 to 2^32 it wraps to a negative number. */
  lemma ToInt32OfDistance(d: real)
    requires d >= 0.0
    ensures d < Two31 as real ==> ToInt32(d) == d.Floor
    ensures Two31 as real <= d < Two32 as real ==> ToInt32(d) == d.Floor - Two32 < 0
  {
  }

  /** RecordRoute: for each point, count it, count it again if a feature is
      there, add the leg from the previous point if there is one, and remember
      it; at the end of the stream, reply with the summary. */
  method RecordRoute(points: seq<Point>, lookup: Point -> Feature, dist: (Point, Point) -> Meters, elapsed: nat)
    returns (summary: RouteSummary)
    ensures summary.pointCount == |points|
    ensures summary.featureCount == FeatureCount(points, lookup) <= |points|
    ensures summary.distance == ToInt32(PathLength(points, dist))
    ensures |points| < 2 ==> summary.distance == 0
    ensures summary.elapsedTime == elapsed
  {
    var pointCount: nat := 0;
    var featureCount: nat := 0;
    var distance: real := 0.0;
    var previous: Option<Point> := None;
    for i := 0 to |points|
      invariant pointCount == i
      invariant featureCount == FeatureCount(points[..i], lookup)
      invariant distance == PathLength(points[..i], dist)
      invariant previous == if i == 0 then None else Some(points[i - 1])
    {
      var point := points[i];
      assert points[..i + 1][..i] == points[..i];
      pointCount := pointCount + 1;
      if lookup(point).name != "" {
        featureCount := featureCount + 1;
      }
      if previous.Some? {
        distance := distance + dist(previous.value, point);
      }
      previous := Some(point);
    }
    assert points[..|points|] == points;
    summary := RouteSummary(pointCount, featureCount, ToInt32(distance), elapsed);
  }
}
