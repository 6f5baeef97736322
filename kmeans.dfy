/** The k-means clustering of unsupervised.py: nearest-centroid
    assignment (map_clusters_with_data, dist), the mean of a cluster
    (mean_of_data_points), the centroid update (recompute_centroids) and
    the ten rounds of main. Feature vectors and centroids are vectors of
    reals; distances are compared squared, which picks the same nearest
    centroid as the Euclidean distance since the square root is
    increasing. */
module KMeans {

  type Point = seq<real>

  /** Every data point is no longer than every centroid, so that dist can
      read the centroid at each of the point's coordinates. */
  predicate Fits(data: seq<Point>, cs: seq<Point>)
  {
    forall i, k :: 0 <= i < |data| && 0 <= k < |cs| ==> |data[i]| <= |cs[k]|
  }

  /** All vectors have d coordinates. */
  predicate Rectangular(vs: seq<Point>, d: nat)
  {
    forall i :: 0 <= i < |vs| ==> |vs[i]| == d
  }

  // ---------------------------------------------------------------------
  // dist

  /** The sum of squared differences over the first n coordinates. */
  function SumOfSquares(p: Point, c: Point, n: nat): (r: real)
    requires n <= |p| && n <= |c|
    ensures r >= 0.0
  {
    if n == 0 then 0.0
    else
      var d := p[n - 1] - c[n - 1];
      assert d * d >= 0.0;
      SumOfSquares(p, c, n - 1) + d * d
  }

  /** dist squared: the sum over the point's coordinates. */
  function SquaredDistance(p: Point, c: Point): (r: real)
    requires |p| <= |c|
  {
    SumOfSquares(p, c, |p|)
  }

  lemma {:induction false} SumOfSquaresEqual(p: Point, c: Point, n: nat)
    requires n <= |p| && n <= |c|
    requires forall x :: 0 <= x < n ==> p[x] == c[x]
    ensures SumOfSquares(p, c, n) == 0.0
  {
    if n > 0 {
      SumOfSquaresEqual(p, c, n - 1);
    }
  }

  /** A point is at distance zero from a centroid that agrees with it on
      its coordinates (a seed word from its own starting centroid). */
  lemma SquaredDistanceSame(p: Point, c: Point)
    requires |p| <= |c| && p == c[..|p|]
    ensures SquaredDistance(p, c) == 0.0
  {
    SumOfSquaresEqual(p, c, |p|);
  }

  /** A point that lies on centroid j goes to a centroid at distance zero,
      and to no later one than j. */
  lemma ClosestToOwnPoint(p: Point, cs: seq<Point>, j: nat)
    requires j < |cs| && (forall k :: 0 <= k < |cs| ==> |p| <= |cs[k]|)
    requires p == cs[j][..|p|]
    ensures ClosestCluster(p, cs) <= j
    ensures SquaredDistance(p, cs[ClosestCluster(p, cs)]) == 0.0
  {
    SquaredDistanceSame(p, cs[j]);
  }

  // ---------------------------------------------------------------------
  // min(range(len(centroids)), key=lambda j: dist(data_point, centroids[j]))

  /** The scan of min() from index k on, with `best` the first index of the
      smallest distance among indices 0..k-1: a later index replaces it
      only when strictly closer. */
  function ClosestFrom(p: Point, cs: seq<Point>, k: nat, best: nat): (r: nat)
    requires best < k <= |cs|
    requires forall j :: 0 <= j < |cs| ==> |p| <= |cs[j]|
    requires forall j :: 0 <= j < k ==> SquaredDistance(p, cs[best]) <= SquaredDistance(p, cs[j])
    requires forall j :: 0 <= j < best ==> SquaredDistance(p, cs[j]) > SquaredDistance(p, cs[best])
    ensures r < |cs|
    ensures forall j :: 0 <= j < |cs| ==> SquaredDistance(p, cs[r]) <= SquaredDistance(p, cs[j])
    ensures forall j :: 0 <= j < r ==> SquaredDistance(p, cs[j]) > SquaredDistance(p, cs[r])
    decreases |cs| - k
  {
    if k == |cs| then best
    else if SquaredDistance(p, cs[k]) < SquaredDistance(p, cs[best]) then ClosestFrom(p, cs, k + 1, k)
    else ClosestFrom(p, cs, k + 1, best)
  }

  /** The closest centroid to p; of several equally close ones, the one
      with the lowest index. */
  function ClosestCluster(p: Point, cs: seq<Point>): (r: nat)
    requires |cs| > 0
    requires forall j :: 0 <= j < |cs| ==> |p| <= |cs[j]|
    ensures r < |cs|
    ensures forall j :: 0 <= j < |cs| ==> SquaredDistance(p, cs[r]) <= SquaredDistance(p, cs[j])
    ensures forall j :: 0 <= j < r ==> SquaredDistance(p, cs[j]) > SquaredDistance(p, cs[r])
  {
    ClosestFrom(p, cs, 1, 0)
  }

  // ---------------------------------------------------------------------
  // map_clusters_with_data

  /** The closest centroid of every point. */
  function Labels(cs: seq<Point>, data: seq<Point>): (r: seq<nat>)
    requires |cs| > 0 && Fits(data, cs)
    ensures |r| == |data|
    ensures forall i :: 0 <= i < |r| ==> r[i] == ClosestCluster(data[i], cs) < |cs|
  {
    seq(|data|, i requires 0 <= i < |data| => ClosestCluster(data[i], cs))
  }

  /** The positions below n that carry label k, in increasing order. */
  function Members(labels: seq<nat>, k: nat, n: nat): (r: seq<nat>)
    requires n <= |labels|
    ensures forall j :: 0 <= j < |r| ==> r[j] < n
  {
    if n == 0 then []
    else Members(labels, k, n - 1) + (if labels[n - 1] == k then [n - 1] else [])
  }

  /** cluster_data_map: for every centroid, the indices of its points. */
  function Assignment(cs: seq<Point>, data: seq<Point>): (r: seq<seq<nat>>)
    requires |cs| > 0 && Fits(data, cs)
    ensures |r| == |cs|
    ensures forall k, j :: 0 <= k < |r| && 0 <= j < |r[k]| ==> r[k][j] < |data|
  {
    var labels := Labels(cs, data);
    seq(|cs|, k requires 0 <= k < |cs| => Members(labels, k, |data|))
  }

  /** map_clusters_with_data without the error total: appends every point
      index to the list of its closest centroid. */
  method MapClustersWithData(cs: seq<Point>, data: seq<Point>) returns (clusters: seq<seq<nat>>)
    requires |cs| > 0 && Fits(data, cs)
    ensures clusters == Assignment(cs, data)
  {
    ghost var labels := Labels(cs, data);
    clusters := seq(|cs|, _ => []);
    for i := 0 to |data|
      invariant |clusters| == |cs|
      invariant forall k :: 0 <= k < |cs| ==> clusters[k] == Members(labels, k, i)
    {
      var closest := ClosestCluster(data[i], cs);
      MembersStep(labels, i);
      clusters := clusters[closest := clusters[closest] + [i]];
    }
  }

  lemma MembersStep(labels: seq<nat>, i: nat)
    requires i < |labels|
    ensures forall k :: Members(labels, k, i + 1) ==
              Members(labels, k, i) + (if k == labels[i] then [i] else [])
  {
  }

  lemma {:induction false} MembersExact(labels: seq<nat>, k: nat, n: nat, i: nat)
    requires n <= |labels|
    ensures i in Members(labels, k, n) <==> i < n && labels[i] == k
  {
    if n > 0 {
      MembersExact(labels, k, n - 1, i);
    }
  }

  lemma {:induction false} MembersAscending(labels: seq<nat>, k: nat, n: nat)
    requires n <= |labels|
    ensures forall a, b :: 0 <= a < b < |Members(labels, k, n)| ==>
              Members(labels, k, n)[a] < Members(labels, k, n)[b]
  {
    if n > 0 {
      MembersAscending(labels, k, n - 1);
    }
  }

  /** The clusters partition the points: point i is in cluster k exactly
      when k is its closest centroid, so in exactly one cluster; and every
      cluster lists its points in increasing order. */
  lemma AssignmentPartition(cs: seq<Point>, data: seq<Point>)
    requires |cs| > 0 && Fits(data, cs)
    ensures forall k, i :: 0 <= k < |cs| && 0 <= i ==>
              (i in Assignment(cs, data)[k] <==> i < |data| && ClosestCluster(data[i], cs) == k)
    ensures forall k, a, b :: 0 <= k < |cs| && 0 <= a < b < |Assignment(cs, data)[k]| ==>
              Assignment(cs, data)[k][a] < Assignment(cs, data)[k][b]
  {
    var labels := Labels(cs, data);
    forall k, i | 0 <= k < |cs| && 0 <= i
      ensures i in Assignment(cs, data)[k] <==> i < |data| && ClosestCluster(data[i], cs) == k
    {
      MembersExact(labels, k, |data|, i);
    }
    forall k | 0 <= k < |cs|
      ensures forall a, b :: 0 <= a < b < |Assignment(cs, data)[k]| ==>
                Assignment(cs, data)[k][a] < Assignment(cs, data)[k][b]
    {
      MembersAscending(labels, k, |data|);
    }
  }

  // ---------------------------------------------------------------------
  // mean_of_data_points

  /** Coordinate x of v, or nothing when v is shorter: the accumulation
      loop only adds the coordinates the point has. */
  function Coord(v: Point, x: nat): real
  {
    if x < |v| then v[x] else 0.0
  }

  /** The sum of coordinate x over the listed points. */
  function ColumnSum(fv: seq<Point>, points: seq<nat>, x: nat): real
    requires forall j :: 0 <= j < |points| ==> points[j] < |fv|
  {
    if points == [] then 0.0
    else ColumnSum(fv, points[..|points| - 1], x) + Coord(fv[points[|points| - 1]], x)
  }

  /** What mean_of_data_points returns: a zero vector for no points,
      otherwise the coordinatewise average. Its length is that of the
      first feature vector. */
  function Mean(fv: seq<Point>, points: seq<nat>): (r: Point)
    requires |fv| > 0
    requires forall j :: 0 <= j < |points| ==> points[j] < |fv|
    ensures |r| == |fv[0]|
  {
    if |points| == 0 then seq(|fv[0]|, _ => 0.0)
    else seq(|fv[0]|, x requires 0 <= x < |fv[0]| => ColumnSum(fv, points, x) / (|points| as real))
  }

  /** mean_of_data_points: accumulates the listed points into a buffer of
      len(feature_vectors[0]) sums and divides by their number. A point
      longer than the first one would overflow the buffer (IndexError). */
  method MeanOfDataPoints(fv: seq<Point>, points: seq<nat>) returns (mean: Point)
    requires |fv| > 0
    requires forall j :: 0 <= j < |points| ==> points[j] < |fv| && |fv[points[j]]| <= |fv[0]|
    ensures mean == Mean(fv, points)
  {
    if |points| == 0 {
      return seq(|fv[0]|, _ => 0.0);
    }
    var acc := new real[|fv[0]|](_ => 0.0);
    for j := 0 to |points|
      invariant forall x :: 0 <= x < acc.Length ==> acc[x] == ColumnSum(fv, points[..j], x)
    {
      var v := fv[points[j]];
      assert points[..j + 1][..j] == points[..j];
      for x := 0 to |v|
        invariant forall y :: 0 <= y < acc.Length ==>
                    acc[y] == ColumnSum(fv, points[..j], y) + (if y < x then v[y] else 0.0)
      {
        acc[x] := acc[x] + v[x];
      }
    }
    assert points[..|points|] == points;
    mean := seq(acc.Length, x requires 0 <= x < acc.Length reads acc => acc[x] / (|points| as real));
  }

  lemma {:induction false} ColumnSumBounds(fv: seq<Point>, points: seq<nat>, x: nat, lo: real, hi: real)
    requires forall j :: 0 <= j < |points| ==> points[j] < |fv|
    requires forall j :: 0 <= j < |points| ==> lo <= Coord(fv[points[j]], x) <= hi
    ensures (|points| as real) * lo <= ColumnSum(fv, points, x) <= (|points| as real) * hi
  {
    if points != [] {
      ColumnSumBounds(fv, points[..|points| - 1], x, lo, hi);
    }
  }

  /** Each coordinate of a cluster's mean lies between the smallest and
      the largest value its points have there: the centroid stays inside
      the bounding box of its cluster. */
  lemma MeanWithinBounds(fv: seq<Point>, points: seq<nat>, x: nat, lo: real, hi: real)
    requires |fv| > 0 && |points| > 0 && x < |fv[0]|
    requires forall j :: 0 <= j < |points| ==> points[j] < |fv|
    requires forall j :: 0 <= j < |points| ==> lo <= Coord(fv[points[j]], x) <= hi
    ensures lo <= Mean(fv, points)[x] <= hi
  {
    ColumnSumBounds(fv, points, x, lo, hi);
    DivBounds(ColumnSum(fv, points, x), |points| as real, lo, hi);
  }

  lemma DivBounds(s: real, n: real, lo: real, hi: real)
    requires n > 0.0 && n * lo <= s <= n * hi
    ensures lo <= s / n <= hi
  {
    var q := s / n;
    assert n * q == s;
    assert n * (q - lo) >= 0.0 && n * (hi - q) >= 0.0;
  }

  // ---------------------------------------------------------------------
  // recompute_centroids and the ten rounds of main

  /** What recompute_centroids returns: one mean per cluster. */
  function Recomputed(fv: seq<Point>, clusters: seq<seq<nat>>): (r: seq<Point>)
    requires |fv| > 0
    requires forall k, j :: 0 <= k < |clusters| && 0 <= j < |clusters[k]| ==> clusters[k][j] < |fv|
    ensures |r| == |clusters| && Rectangular(r, |fv[0]|)
  {
    seq(|clusters|, k requires 0 <= k < |clusters| => Mean(fv, clusters[k]))
  }

  /** recompute_centroids: the mean of every cluster, in cluster order. */
  method RecomputeCentroids(fv: seq<Point>, clusters: seq<seq<nat>>) returns (centroids: seq<Point>)
    requires |fv| > 0 && Rectangular(fv, |fv[0]|)
    requires forall k, j :: 0 <= k < |clusters| && 0 <= j < |clusters[k]| ==> clusters[k][j] < |fv|
    ensures centroids == Recomputed(fv, clusters)
  {
    centroids := [];
    for k := 0 to |clusters|
      invariant centroids == Recomputed(fv, clusters[..k])
    {
      assert clusters[..k + 1][..k] == clusters[..k];
      var mean := MeanOfDataPoints(fv, clusters[k]);
      centroids := centroids + [mean];
    }
    assert clusters[..|clusters|] == clusters;
  }

  /** The centroids after t rounds, starting from the feature vectors of
      the seed words. */
  function CentroidsAfter(fv: seq<Point>, seeds: seq<nat>, t: nat): (r: seq<Point>)
    requires |fv| > 0 && Rectangular(fv, |fv[0]|)
    requires |seeds| > 0 && forall k :: 0 <= k < |seeds| ==> seeds[k] < |fv|
    ensures |r| == |seeds| && Rectangular(r, |fv[0]|) && Fits(fv, r)
  {
    if t == 0 then seq(|seeds|, k requires 0 <= k < |seeds| => fv[seeds[k]])
    else
      var cs := CentroidsAfter(fv, seeds, t - 1);
      Recomputed(fv, Assignment(cs, fv))
  }

  /** The number of rounds main runs. */
  const Rounds: nat := 10

  /** The clustering loop of main: starts from the seed words' vectors and
      runs ten rounds of assignment and update; the result is the
      assignment of the last round, made with the centroids of the ninth
      update. */
  method Cluster(fv: seq<Point>, seeds: seq<nat>) returns (clusters: seq<seq<nat>>)
    requires |fv| > 0 && Rectangular(fv, |fv[0]|)
    requires |seeds| > 0 && forall k :: 0 <= k < |seeds| ==> seeds[k] < |fv|
    ensures clusters == Assignment(CentroidsAfter(fv, seeds, Rounds - 1), fv)
  {
    var centroids := seq(|seeds|, k requires 0 <= k < |seeds| => fv[seeds[k]]);
    clusters := [];
    for round := 0 to Rounds
      invariant centroids == CentroidsAfter(fv, seeds, round)
      invariant round > 0 ==> clusters == Assignment(CentroidsAfter(fv, seeds, round - 1), fv)
    {
      clusters := MapClustersWithData(centroids, fv);
      centroids := RecomputeCentroids(fv, clusters);
    }
  }
}
