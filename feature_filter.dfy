/** ListFeatures: stream every named feature inside a closed bounding box. */
module FeatureFilter {
  import opened Messages

  /** The box of a rectangle request, normalised so that corners may come in
      either order on either axis. */
  datatype Box = Box(left: int, right: int, top: int, bottom: int)

  function Min(a: int, b: int): int { if a <= b then a else b }
  function Max(a: int, b: int): int { if a <= b then b else a }

  function BoxOf(r: Rectangle): (b: Box)
    ensures b.left <= r.lo.longitude && b.left <= r.hi.longitude
    ensures b.left == r.lo.longitude || b.left == r.hi.longitude
    ensures b.right >= r.lo.longitude && b.right >= r.hi.longitude
    ensures b.right == r.lo.longitude || b.right == r.hi.longitude
    ensures b.bottom <= r.lo.latitude && b.bottom <= r.hi.latitude
    ensures b.bottom == r.lo.latitude || b.bottom == r.hi.latitude
    ensures b.top >= r.lo.latitude && b.top >= r.hi.latitude
    ensures b.top == r.lo.latitude || b.top == r.hi.latitude
  {
    Box(Min(r.lo.longitude, r.hi.longitude), Max(r.lo.longitude, r.hi.longitude),
        Max(r.lo.latitude, r.hi.latitude), Min(r.lo.latitude, r.hi.latitude))
  }

  /** Inside the box, edges included. */
  predicate InBox(b: Box, p: Point)
  {
    b.left <= p.longitude <= b.right && b.bottom <= p.latitude <= b.top
  }

  /** Whether ListFeatures writes feature `f` for request `r`. */
  predicate Emitted(r: Rectangle, f: Feature)
  {
    f.name != "" && InBox(BoxOf(r), f.location)
  }

  /** The features written for request `r`, in stored order. */
  function Listed(features: seq<Feature>, r: Rectangle): (out: seq<Feature>)
    ensures |out| <= |features|
    ensures forall i :: 0 <= i < |out| ==> out[i].name != "" && InBox(BoxOf(r), out[i].location)
  {
    if features == [] then []
    else
      var last := features[|features| - 1];
      Listed(features[..|features| - 1], r) + (if Emitted(r, last) then [last] else [])
  }

  /** The positions in `features` of the features that are written. */
  function ListedIndices(features: seq<Feature>, r: Rectangle): seq<nat>
  {
    if features == [] then []
    else
      var n := |features| - 1;
      ListedIndices(features[..n], r) + (if Emitted(r, features[n]) then [n] else [])
  }

  /** Between two corners on both axes, whichever corner is the lower one. */
  predicate BetweenCorners(lo: Point, hi: Point, p: Point)
  {
    && (lo.longitude <= p.longitude <= hi.longitude || hi.longitude <= p.longitude <= lo.longitude)
    && (lo.latitude <= p.latitude <= hi.latitude || hi.latitude <= p.latitude <= lo.latitude)
  }

  /** The normalised box holds exactly the points between the two corners. */
  lemma InBoxIffBetweenCorners(r: Rectangle, p: Point)
    ensures InBox(BoxOf(r), p) <==> BetweenCorners(r.lo, r.hi, p)
  {
  }

  /** A feature is written if and only if it is stored, named and in the box. */
  lemma {:induction false} ListedMembers(features: seq<Feature>, r: Rectangle, f: Feature)
    ensures f in Listed(features, r) <==> f in features && f.name != "" && BetweenCorners(r.lo, r.hi, f.location)
  {
    InBoxIffBetweenCorners(r, f.location);
    if features != [] {
      var init := features[..|features| - 1];
      ListedMembers(init, r, f);
      assert features == init + [features[|features| - 1]];
    }
  }

  /** The written features are the stored features at strictly increasing
      positions, and a position is taken exactly when its feature is emitted:
      the output is the subsequence of the emitted features, in stored order. */
  lemma {:induction false} ListedIsOrderedSubsequence(features: seq<Feature>, r: Rectangle)
    ensures var out, idx := Listed(features, r), ListedIndices(features, r);
      && |idx| == |out|
      && (forall k :: 0 <= k < |idx| ==> idx[k] < |features| && out[k] == features[idx[k]])
      && (forall k, l :: 0 <= k < l < |idx| ==> idx[k] < idx[l])
      && (forall i :: 0 <= i < |features| ==> (Emitted(r, features[i]) <==> i in idx))
  {
    if features != [] {
      var n := |features| - 1;
      var init := features[..n];
      ListedIsOrderedSubsequence(init, r);
      var out, idx := Listed(features, r), ListedIndices(features, r);
      var out0, idx0 := Listed(init, r), ListedIndices(init, r);
      var taken := Emitted(r, features[n]);
      assert out == out0 + (if taken then [features[n]] else []);
      assert idx == idx0 + (if taken then [n] else []);
      forall k | 0 <= k < |idx|
        ensures idx[k] < |features| && out[k] == features[idx[k]]
      {
        if k < |idx0| {
          assert idx[k] == idx0[k] && out[k] == out0[k];
          assert init[idx0[k]] == features[idx0[k]];
        }
      }
      forall k, l | 0 <= k < l < |idx|
        ensures idx[k] < idx[l]
      {
        assert idx[k] == idx0[k] < n;
      }
      forall i | 0 <= i < |features|
        ensures Emitted(r, features[i]) <==> i in idx
      {
        if i < n {
          assert features[i] == init[i];
          assert i in idx <==> i in idx0;
        }
      }
    }
  }

  /** The output depends on the request only through its normalised box. */
  lemma {:induction false} ListedDependsOnlyOnBox(features: seq<Feature>, r1: Rectangle, r2: Rectangle)
    requires BoxOf(r1) == BoxOf(r2)
    ensures Listed(features, r1) == Listed(features, r2)
  {
    if features != [] {
      ListedDependsOnlyOnBox(features[..|features| - 1], r1, r2);
    }
  }

  /** Swapping the corners, on either axis or on both, gives the same output. */
  lemma {:induction false} CornerOrderIrrelevant(features: seq<Feature>, lo: Point, hi: Point)
    ensures Listed(features, Rectangle(hi, lo)) == Listed(features, Rectangle(lo, hi))
    ensures Listed(features, Rectangle(Point(lo.latitude, hi.longitude), Point(hi.latitude, lo.longitude)))
         == Listed(features, Rectangle(lo, hi))
    ensures Listed(features, Rectangle(Point(hi.latitude, lo.longitude), Point(lo.latitude, hi.longitude)))
         == Listed(features, Rectangle(lo, hi))
  {
    var r := Rectangle(lo, hi);
    ListedDependsOnlyOnBox(features, Rectangle(hi, lo), r);
    ListedDependsOnlyOnBox(features, Rectangle(Point(lo.latitude, hi.longitude), Point(hi.latitude, lo.longitude)), r);
    ListedDependsOnlyOnBox(features, Rectangle(Point(hi.latitude, lo.longitude), Point(lo.latitude, hi.longitude)), r);
  }

  /** A sentinel feature is skipped even when it lies inside the box. */
  lemma SentinelNeverListed(features: seq<Feature>, r: Rectangle, p: Point)
    ensures Feature("", p) !in Listed(features, r)
  {
  }

  /** One more stored feature adds itself to the output exactly when it is emitted. */
  lemma ListedStep(features: seq<Feature>, i: nat, r: Rectangle)
    requires i < |features|
    ensures Listed(features[..i + 1], r) == Listed(features[..i], r) + (if Emitted(r, features[i]) then [features[i]] else [])
  {
    assert features[..i + 1][..i] == features[..i];
  }

  /** ListFeatures: walk the stored features in order, write each named one
      inside the box, then end the stream. */
  method ListFeatures(featureList: seq<Feature>, request: Rectangle) returns (out: seq<Outbound<Feature>>)
    ensures out == Writes(Listed(featureList, request)) + [End]
  {
    var lo, hi := request.lo, request.hi;
    var left := Min(lo.longitude, hi.longitude);
    var right := Max(lo.longitude, hi.longitude);
    var top := Max(lo.latitude, hi.latitude);
    var bottom := Min(lo.latitude, hi.latitude);
    assert Box(left, right, top, bottom) == BoxOf(request);
    out := [];
    for i := 0 to |featureList|
      invariant out == Writes(Listed(featureList[..i], request))
    {
      var feature := featureList[i];
      ListedStep(featureList, i, request);
      if feature.name == "" {
        continue;
      }
      if left <= feature.location.longitude && feature.location.longitude <= right
        && bottom <= feature.location.latitude && feature.location.latitude <= top
      {
        WritesStep(Listed(featureList[..i], request), feature);
        out := out + [Write(feature)];
      }
    }
    assert featureList[..|featureList|] == featureList;
    out := out + [End];
  }
}
