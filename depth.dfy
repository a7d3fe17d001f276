/** Sparse depth maps from static LiDAR points (src/nuscenes_gs/depth.py,
    `project_lidar_to_depth`). */
module Depth {
  import opened Wrappers
  import opened LinAlg
  import opened Filters
  import opened Masks

  /** nuScenes lidarseg classes dropped when no list is given: vehicle.* (17–23),
      human.* (2–7) and cycle.* (14–16). */
  const DefaultDynamicClasses: seq<int> :=
    [17, 18, 19, 20, 21, 22, 23] + [2, 3, 4, 5, 6, 7] + [14, 15, 16]

  /** The default `depth_range`, in metres. */
  const DefaultMinDepth: real := 0.1
  const DefaultMaxDepth: real := 80.0

  /** Largest value a uint16 pixel holds. */
  const UInt16Max: int := 65535

  /** Which points are kept: classes to drop and the accepted depth interval (inclusive). */
  datatype DepthFilter = DepthFilter(dynamic: seq<int>, minDepth: real, maxDepth: real)

  /** The keyword arguments with their defaults applied: `dynamic_classes=None` stands for
      the default class list. */
  function FilterOf(dynamicClasses: Option<seq<int>>, depthRange: (real, real)): (f: DepthFilter)
    ensures dynamicClasses.None? ==> f.dynamic == DefaultDynamicClasses
    ensures dynamicClasses.Some? ==> f.dynamic == dynamicClasses.value
    ensures f.minDepth == depthRange.0 && f.maxDepth == depthRange.1
  {
    DepthFilter(if dynamicClasses.Some? then dynamicClasses.value else DefaultDynamicClasses,
                depthRange.0, depthRange.1)
  }

  // ---------------------------------------------------------------------------------------
  // Rounding and the millimetre encoding

  /** Python's `round` of a finite float: the nearest integer, a tie going to the even one. */
  function Round(x: real): (n: int)
    ensures x - 0.5 <= n as real <= x + 0.5
    ensures (n as real - x == 0.5 || x - n as real == 0.5) ==> n % 2 == 0
  {
    var f := x.Floor;
    var frac := x - f as real;
    if frac < 0.5 then f
    else if frac > 0.5 then f + 1
    else if f % 2 == 0 then f
    else f + 1
  }

  /** No integer is strictly nearer to x than `Round(x)`. */
  lemma RoundIsNearest(x: real, m: int)
    ensures var n := Round(x);
      (if x >= n as real then x - n as real else n as real - x)
      <= (if x >= m as real then x - m as real else m as real - x)
  {
    var n := Round(x);
    if m < n {
      assert m as real <= n as real - 1.0;
    } else if m > n {
      assert m as real >= n as real + 1.0;
    }
  }

  /** A coordinate inside `[0, w)` rounds into `[0, w]`: the bounds test on the rounded pixel is
      still needed, since `w - 0.5` itself rounds to w when w is even. */
  lemma RoundInImage(x: real, w: nat)
    requires 0.0 <= x < w as real
    ensures 0 <= Round(x) <= w
  {
  }

  /** The loop's second bounds test is reachable: with a nuScenes front camera 1600 pixels wide,
      u = 1599.5 passes the bounds test but rounds to column 1600. */
  lemma RoundReachesWidth()
    ensures 0.0 <= 1599.5 < 1600 as real && Round(1599.5) == 1600
  {
    assert (1599.5).Floor == 1599;
  }

  /** A float converted to an integer type drops its fractional part (rounds toward zero). */
  function Trunc(x: real): (n: int)
    ensures x >= 0.0 ==> n >= 0 && n as real <= x < n as real + 1.0
    ensures x < 0.0 ==> n <= 0 && n as real - 1.0 < x <= n as real
  {
    if x >= 0.0 then x.Floor else -((-x).Floor)
  }

  /** `(depth * 1000).astype(np.uint16)` as written, for one pixel: the truncated millimetre
      count that the cast is asked to store. Nothing keeps it below 65536. */
  function MillimetresAsWritten(d: real): (mm: int)
    ensures d >= 0.0 ==> 0 <= mm && mm as real <= d * 1000.0 < mm as real + 1.0
  {
    Trunc(d * 1000.0)
  }

  /** A depth inside the default range, 70 m, needs 70000 mm: more than a uint16 holds, so the
      stored pixel cannot mean 70 m. Every depth from 65.536 m up to the default 80 m maximum
      is affected. */
  lemma DefaultRangeOverflows()
    ensures DefaultMinDepth <= 70.0 <= DefaultMaxDepth
    ensures MillimetresAsWritten(70.0) == 70000
    ensures MillimetresAsWritten(70.0) > UInt16Max
  {
    assert (70000.0).Floor == 70000;
  }

  /** The encoding with the overflow removed: millimetres truncated and saturated at the largest
      uint16 value, the `np.clip(depth * 1000, 0, 65535).astype(np.uint16)` the format needs. */
  function Millimetres(d: real): (mm: int)
    requires d >= 0.0
    ensures 0 <= mm <= UInt16Max
  {
    var t := Trunc(d * 1000.0);
    if t > UInt16Max then UInt16Max else t
  }

  /** Below 65.536 m the saturated encoding stores exactly what the code as written computes,
      and reading it back gives the depth to within one millimetre. */
  lemma MillimetresExact(d: real)
    requires 0.0 <= d < 65.536
    ensures Millimetres(d) == MillimetresAsWritten(d)
    ensures Millimetres(d) as real / 1000.0 <= d < (Millimetres(d) + 1) as real / 1000.0
  {
  }

  /** Farther depths all store the largest value. */
  lemma MillimetresSaturate(d: real)
    requires d >= 65.536
    ensures Millimetres(d) == UInt16Max
  {
  }

  /** A nearer point never gets a larger value. */
  lemma MillimetresMonotone(a: real, b: real)
    requires 0.0 <= a <= b
    ensures Millimetres(a) <= Millimetres(b)
  {
  }

  /** 0 is reserved for "no depth": any depth of at least 1 mm stores a nonzero value, and an
      empty pixel (0.0) stores 0. */
  lemma MillimetresZeroMeansEmpty(d: real)
    requires d >= 0.0
    ensures d >= 0.001 ==> Millimetres(d) >= 1
    ensures d == 0.0 ==> Millimetres(d) == 0
  {
  }

  // ---------------------------------------------------------------------------------------
  // The nearest-point raster

  /** A projected point and its camera depth, as the rasterising loop receives them. */
  datatype Hit = Hit(pixel: Pixel, depth: real)

  /** The hit writes to column u, row v: `(int(round(u)), int(round(v)))`. */
  predicate LandsOn(h: Hit, u: int, v: int) {
    h.pixel.Pixel? && Round(h.pixel.u) == u && Round(h.pixel.v) == v
  }

  /** The value pixel (u, v) of the float map holds after the hits are written in order: a hit
      landing on it replaces the value when the pixel is still empty (0) or the hit is nearer.
      The result is 0 or the depth of a hit that lands on the pixel. */
  function NearestAt(hits: seq<Hit>, u: int, v: int): (d: real)
    ensures d == 0.0 || exists j :: 0 <= j < |hits| && LandsOn(hits[j], u, v) && hits[j].depth == d
    decreases |hits|
  {
    if |hits| == 0 then 0.0
    else
      var init := hits[..|hits| - 1];
      var cur := NearestAt(init, u, v);
      var h := hits[|hits| - 1];
      assert forall j :: 0 <= j < |init| ==> init[j] == hits[j];
      if LandsOn(h, u, v) && (cur == 0.0 || h.depth < cur) then h.depth else cur
  }

  /** Some hit lands on pixel (u, v). */
  ghost predicate Covered(hits: seq<Hit>, u: int, v: int) {
    exists j :: 0 <= j < |hits| && LandsOn(hits[j], u, v)
  }

  /** The nearest-point rule stated without the loop: an uncovered pixel holds 0; a covered one
      holds the depth of a hit landing on it that no other landing hit undercuts. */
  ghost predicate IsNearest(hits: seq<Hit>, u: int, v: int, d: real) {
    if Covered(hits, u, v) then
      (exists j :: 0 <= j < |hits| && LandsOn(hits[j], u, v) && hits[j].depth == d)
      && (forall j :: 0 <= j < |hits| && LandsOn(hits[j], u, v) ==> d <= hits[j].depth)
    else d == 0.0
  }

  /** With positive depths, the loop leaves every pixel at the minimum depth of the hits that
      land on it, and at 0 where none does. */
  lemma {:induction false} NearestIsMinimum(hits: seq<Hit>, u: int, v: int)
    requires forall j :: 0 <= j < |hits| ==> hits[j].depth > 0.0
    ensures IsNearest(hits, u, v, NearestAt(hits, u, v))
    decreases |hits|
  {
    if |hits| > 0 {
      var init := hits[..|hits| - 1];
      var last := hits[|hits| - 1];
      assert forall j :: 0 <= j < |init| ==> init[j] == hits[j];
      NearestIsMinimum(init, u, v);
      var cur := NearestAt(init, u, v);
      var d := NearestAt(hits, u, v);
      if Covered(init, u, v) {
        var j0 :| 0 <= j0 < |init| && LandsOn(init[j0], u, v) && init[j0].depth == cur;
        assert cur > 0.0;
        assert LandsOn(hits[j0], u, v);
        if LandsOn(last, u, v) && last.depth < cur {
          assert d == last.depth;
          assert LandsOn(hits[|hits| - 1], u, v);
        } else {
          assert d == cur;
          assert hits[j0].depth == d;
        }
      } else if LandsOn(last, u, v) {
        assert d == last.depth;
        assert LandsOn(hits[|hits| - 1], u, v);
      } else {
        assert d == 0.0;
        assert !Covered(hits, u, v) by {
          forall j | 0 <= j < |hits| ensures !LandsOn(hits[j], u, v) {
            if j < |init| {
              assert hits[j] == init[j];
            }
          }
        }
      }
    }
  }

  /** Reordering the hits does not change which pixels are covered. */
  lemma CoveredSame(hits1: seq<Hit>, hits2: seq<Hit>, u: int, v: int)
    requires multiset(hits1) == multiset(hits2)
    ensures Covered(hits1, u, v) <==> Covered(hits2, u, v)
  {
    if Covered(hits1, u, v) {
      var j :| 0 <= j < |hits1| && LandsOn(hits1[j], u, v);
      assert hits1[j] in multiset(hits2);
      var k :| 0 <= k < |hits2| && hits2[k] == hits1[j];
    }
    if Covered(hits2, u, v) {
      var j :| 0 <= j < |hits2| && LandsOn(hits2[j], u, v);
      assert hits2[j] in multiset(hits1);
      var k :| 0 <= k < |hits1| && hits1[k] == hits2[j];
    }
  }

  /** The nearest-point rule has one answer for a given collection of hits, whatever the order. */
  lemma NearestUnique(hits1: seq<Hit>, hits2: seq<Hit>, u: int, v: int, d1: real, d2: real)
    requires multiset(hits1) == multiset(hits2)
    requires IsNearest(hits1, u, v, d1) && IsNearest(hits2, u, v, d2)
    ensures d1 == d2
  {
    CoveredSame(hits1, hits2, u, v);
    if Covered(hits1, u, v) {
      var j1 :| 0 <= j1 < |hits1| && LandsOn(hits1[j1], u, v) && hits1[j1].depth == d1;
      assert hits1[j1] in multiset(hits2);
      var k1 :| 0 <= k1 < |hits2| && hits2[k1] == hits1[j1];
      var j2 :| 0 <= j2 < |hits2| && LandsOn(hits2[j2], u, v) && hits2[j2].depth == d2;
      assert hits2[j2] in multiset(hits1);
      var k2 :| 0 <= k2 < |hits1| && hits1[k2] == hits2[j2];
    }
  }

  /** Rasterising the same points in another order gives the same depth map. */
  lemma NearestOrderIndependent(hits1: seq<Hit>, hits2: seq<Hit>, u: int, v: int)
    requires multiset(hits1) == multiset(hits2)
    requires forall j :: 0 <= j < |hits1| ==> hits1[j].depth > 0.0
    ensures NearestAt(hits1, u, v) == NearestAt(hits2, u, v)
  {
    forall j | 0 <= j < |hits2| ensures hits2[j].depth > 0.0 {
      assert hits2[j] in multiset(hits1);
    }
    NearestIsMinimum(hits1, u, v);
    NearestIsMinimum(hits2, u, v);
    NearestUnique(hits1, hits2, u, v, NearestAt(hits1, u, v), NearestAt(hits2, u, v));
  }

  /** One more hit: what the loop body does to each pixel. */
  lemma NearestStep(hits: seq<Hit>, i: nat, u: int, v: int)
    requires i < |hits|
    ensures NearestAt(hits[..i + 1], u, v)
         == if LandsOn(hits[i], u, v) && (NearestAt(hits[..i], u, v) == 0.0
                                          || hits[i].depth < NearestAt(hits[..i], u, v))
            then hits[i].depth else NearestAt(hits[..i], u, v)
  {
    assert hits[..i + 1][..i] == hits[..i];
  }

  /** The float depth map the loop leaves, row v, column u. */
  function NearestGrid(hits: seq<Hit>, h: nat, w: nat): (g: seq<seq<real>>)
    ensures |g| == h && forall v :: 0 <= v < h ==> |g[v]| == w
  {
    seq(h, v requires 0 <= v < h => seq(w, u requires 0 <= u < w => NearestAt(hits, u, v)))
  }

  /** `(depth_map * 1000)` converted pixel by pixel with the saturated encoding. */
  function ToMillimetres(g: seq<seq<real>>): (r: seq<seq<int>>)
    requires forall v, u :: 0 <= v < |g| && 0 <= u < |g[v]| ==> g[v][u] >= 0.0
    ensures |r| == |g| && forall v :: 0 <= v < |g| ==> |r[v]| == |g[v]|
  {
    seq(|g|, v requires 0 <= v < |g| =>
      seq(|g[v]|, u requires 0 <= u < |g[v]| => Millimetres(g[v][u])))
  }

  /** The uint16 raster for a list of hits with non-negative depths. */
  function DepthRaster(hits: seq<Hit>, h: nat, w: nat): (r: seq<seq<int>>)
    requires forall j :: 0 <= j < |hits| ==> hits[j].depth >= 0.0
    ensures |r| == h && forall v :: 0 <= v < h ==> |r[v]| == w
  {
    ToMillimetres(NearestGrid(hits, h, w))
  }

  /** `np.zeros((h, w), dtype=np.uint16)` */
  function ZeroRaster(h: nat, w: nat): (r: seq<seq<int>>)
    ensures |r| == h && forall v :: 0 <= v < h ==> |r[v]| == w && forall u :: 0 <= u < w ==> r[v][u] == 0
  {
    seq(h, v requires 0 <= v < h => seq(w, u requires 0 <= u < w => 0))
  }

  // ---------------------------------------------------------------------------------------
  // Which points contribute

  function StaticOf(dynamic: seq<int>): int -> bool {
    (cls: int) => cls !in dynamic
  }

  function InRangeOf(minDepth: real, maxDepth: real): real -> bool {
    (d: real) => minDepth <= d <= maxDepth
  }

  function HitOf(k: Mat3): Vec3 -> Hit {
    (c: Vec3) => Hit(Project(k, c), c[2])
  }

  /** A world point reaches the rasterising loop when its class is not dynamic, it lies in
      front of the camera, its depth is inside the range and it projects inside the image. */
  predicate Contributes(p: Vec3, cls: int, w2c: Mat4, k: Mat3, h: nat, w: nat, f: DepthFilter) {
    var c := Apply(w2c, p);
    && cls !in f.dynamic
    && c[2] > 0.0
    && f.minDepth <= c[2] <= f.maxDepth
    && InImage(Project(k, c), h, w)
  }

  /** The four filters as one element-wise mask over all input points. */
  function ContributingMask(points: seq<Vec3>, labels: seq<int>, w2c: Mat4, k: Mat3,
                            h: nat, w: nat, f: DepthFilter): (m: seq<bool>)
    requires |labels| == |points|
    ensures |m| == |points|
    ensures forall i :: 0 <= i < |points| ==>
      (m[i] <==> Contributes(points[i], labels[i], w2c, k, h, w, f))
  {
    var cams := MapSeq(CameraOf(w2c), points);
    And(And(And(MapSeq(StaticOf(f.dynamic), labels), MapSeq(InFrontOf(), cams)),
            MapSeq(InRangeOf(f.minDepth, f.maxDepth), MapSeq(DepthOf(), cams))),
        MapSeq(InImageOf(h, w), MapSeq(PixelOf(k), cams)))
  }

  /** The hits of the contributing points, in input order. */
  function Candidates(points: seq<Vec3>, labels: seq<int>, w2c: Mat4, k: Mat3,
                      h: nat, w: nat, f: DepthFilter): (hits: seq<Hit>)
    requires |labels| == |points|
    ensures |hits| == Count(ContributingMask(points, labels, w2c, k, h, w, f))
  {
    MapSeq(HitOf(k), Select(MapSeq(CameraOf(w2c), points), ContributingMask(points, labels, w2c, k, h, w, f)))
  }

  /** Every candidate comes from a contributing input point, so it projects inside the image and
      its depth is positive and inside the range. */
  lemma {:induction false} CandidatesContribute(points: seq<Vec3>, labels: seq<int>, w2c: Mat4,
                                                k: Mat3, h: nat, w: nat, f: DepthFilter)
    requires |labels| == |points|
    ensures var hits := Candidates(points, labels, w2c, k, h, w, f);
      forall j :: 0 <= j < |hits| ==>
        InImage(hits[j].pixel, h, w) && hits[j].depth > 0.0
        && f.minDepth <= hits[j].depth <= f.maxDepth
  {
    var cams := MapSeq(CameraOf(w2c), points);
    var mask := ContributingMask(points, labels, w2c, k, h, w, f);
    var hits := Candidates(points, labels, w2c, k, h, w, f);
    forall j | 0 <= j < |hits|
      ensures InImage(hits[j].pixel, h, w) && hits[j].depth > 0.0
           && f.minDepth <= hits[j].depth <= f.maxDepth
    {
      SelectFrom(cams, mask, j);
      var i :| 0 <= i < |cams| && mask[i] && Select(cams, mask)[j] == cams[i];
      assert Contributes(points[i], labels[i], w2c, k, h, w, f);
    }
  }

  /** Errors `project_lidar_to_depth` can raise: numpy refuses a label mask whose length is not
      the number of points. */
  datatype DepthError = LabelCountMismatch

  /** What `project_lidar_to_depth` returns, stated on the whole input at once. */
  function ExpectedDepth(points: seq<Vec3>, labels: seq<int>, w2c: Mat4, k: Mat3,
                         imageShape: (nat, nat), f: DepthFilter): (r: Result<seq<seq<int>>, DepthError>)
    ensures r.Err? <==> |labels| != |points|
    ensures r.Ok? ==> (|r.value| == imageShape.0
                       && forall v :: 0 <= v < imageShape.0 ==> |r.value[v]| == imageShape.1)
  {
    if |labels| != |points| then Err(LabelCountMismatch)
    else
      CandidatesContribute(points, labels, w2c, k, imageShape.0, imageShape.1, f);
      Ok(DepthRaster(Candidates(points, labels, w2c, k, imageShape.0, imageShape.1, f),
                     imageShape.0, imageShape.1))
  }

  /** What a uint16 pixel promises: 0 exactly when no hit lands on it, otherwise the encoded
      depth of a landing hit that no other landing hit undercuts. */
  ghost predicate EncodesNearest(hits: seq<Hit>, u: int, v: int, px: int) {
    && (px == 0 <==> !Covered(hits, u, v))
    && (Covered(hits, u, v) ==>
          exists j :: 0 <= j < |hits| && LandsOn(hits[j], u, v) && hits[j].depth >= 0.0
            && px == Millimetres(hits[j].depth)
            && forall j' :: 0 <= j' < |hits| && LandsOn(hits[j'], u, v) ==> hits[j].depth <= hits[j'].depth)
  }

  /** Pixel by pixel, for hits at least 1 mm away: 0 exactly where no hit lands, otherwise the
      encoded depth of a landing hit that no other landing hit undercuts. */
  lemma {:induction false} RasterPixel(hits: seq<Hit>, h: nat, w: nat, u: nat, v: nat)
    requires forall j :: 0 <= j < |hits| ==> hits[j].depth >= 0.001
    requires v < h && u < w
    ensures EncodesNearest(hits, u, v, DepthRaster(hits, h, w)[v][u])
  {
    NearestIsMinimum(hits, u, v);
    var d := NearestAt(hits, u, v);
    assert DepthRaster(hits, h, w)[v][u] == Millimetres(d);
    MillimetresZeroMeansEmpty(d);
    if Covered(hits, u, v) {
      var j :| 0 <= j < |hits| && LandsOn(hits[j], u, v) && hits[j].depth == d;
    }
  }

  /** The raster does not depend on the order the points arrive in. */
  lemma RasterOrderIndependent(hits1: seq<Hit>, hits2: seq<Hit>, h: nat, w: nat)
    requires multiset(hits1) == multiset(hits2)
    requires forall j :: 0 <= j < |hits1| ==> hits1[j].depth > 0.0
    ensures forall j :: 0 <= j < |hits2| ==> hits2[j].depth > 0.0
    ensures DepthRaster(hits1, h, w) == DepthRaster(hits2, h, w)
  {
    forall j | 0 <= j < |hits2| ensures hits2[j].depth > 0.0 {
      assert hits2[j] in multiset(hits1);
    }
    forall v, u | 0 <= v < h && 0 <= u < w
      ensures DepthRaster(hits1, h, w)[v][u] == DepthRaster(hits2, h, w)[v][u]
    {
      NearestOrderIndependent(hits1, hits2, u, v);
    }
    forall v | 0 <= v < h ensures DepthRaster(hits1, h, w)[v] == DepthRaster(hits2, h, w)[v] {
    }
  }

  /** `project_lidar_to_depth` pixel by pixel, with a minimum depth of at least 1 mm (the default
      is 0.1 m): 0 exactly where no contributing point lands, otherwise the encoded depth of the
      nearest contributing point that lands there. */
  lemma {:induction false} ExpectedDepthPixel(points: seq<Vec3>, labels: seq<int>, w2c: Mat4, k: Mat3,
                                              imageShape: (nat, nat), f: DepthFilter, u: nat, v: nat)
    requires |labels| == |points|
    requires f.minDepth >= 0.001
    requires v < imageShape.0 && u < imageShape.1
    ensures EncodesNearest(Candidates(points, labels, w2c, k, imageShape.0, imageShape.1, f), u, v,
                           ExpectedDepth(points, labels, w2c, k, imageShape, f).value[v][u])
  {
    var hits := Candidates(points, labels, w2c, k, imageShape.0, imageShape.1, f);
    CandidatesContribute(points, labels, w2c, k, imageShape.0, imageShape.1, f);
    assert ExpectedDepth(points, labels, w2c, k, imageShape, f).value
        == DepthRaster(hits, imageShape.0, imageShape.1);
    RasterPixel(hits, imageShape.0, imageShape.1, u, v);
  }

  /** Without contributing points the raster is all zeros, which is what the early returns
      produce. */
  lemma NoCandidatesZero(hits: seq<Hit>, h: nat, w: nat)
    requires |hits| == 0
    ensures DepthRaster(hits, h, w) == ZeroRaster(h, w)
  {
    var r := DepthRaster(hits, h, w);
    forall v | 0 <= v < h ensures r[v] == ZeroRaster(h, w)[v] {
      forall u | 0 <= u < w ensures r[v][u] == 0 {
        assert NearestGrid(hits, h, w)[v][u] == 0.0;
      }
    }
  }

  /** Projections zipped with their depths. */
  function Zip(uv: seq<Pixel>, depths: seq<real>): (hits: seq<Hit>)
    requires |uv| == |depths|
    ensures |hits| == |uv|
  {
    seq(|uv|, j requires 0 <= j < |uv| => Hit(uv[j], depths[j]))
  }

  // ---------------------------------------------------------------------------------------
  // project_lidar_to_depth

  /** The rasterising loop over `zip(uv, depths)`: a float map of zeros; each point goes to its
      rounded pixel when that pixel is inside the map and is still empty or holds a farther
      depth. The map read out row by row is the nearest-point grid of the hits. */
  method FillDepthMap(uv: seq<Pixel>, depths: seq<real>, h: nat, w: nat) returns (grid: seq<seq<real>>)
    requires |uv| == |depths|
    requires forall j :: 0 <= j < |uv| ==> uv[j].Pixel?
    ensures grid == NearestGrid(Zip(uv, depths), h, w)
  {
    ghost var hits := Zip(uv, depths);
    var depthMap := new real[h, w]((v: int, u: int) => 0.0);
    var i := 0;
    while i < |uv|
      invariant 0 <= i <= |uv|
      invariant forall v, u :: 0 <= v < h && 0 <= u < w ==> depthMap[v, u] == NearestAt(hits[..i], u, v)
    {
      var uInt := Round(uv[i].u);
      var vInt := Round(uv[i].v);
      if 0 <= uInt < w && 0 <= vInt < h {
        if depthMap[vInt, uInt] == 0.0 || depths[i] < depthMap[vInt, uInt] {
          depthMap[vInt, uInt] := depths[i];
        }
      }
      forall v, u | 0 <= v < h && 0 <= u < w
        ensures depthMap[v, u] == NearestAt(hits[..i + 1], u, v)
      {
        NearestStep(hits, i, u, v);
      }
      i := i + 1;
    }
    assert hits[..i] == hits;
    grid := seq(h, v requires 0 <= v < h reads depthMap =>
              seq(w, u requires 0 <= u < w reads depthMap => depthMap[v, u]));
    forall v | 0 <= v < h ensures grid[v] == NearestGrid(hits, h, w)[v] {
      assert forall u :: 0 <= u < w ==> grid[v][u] == NearestGrid(hits, h, w)[v][u];
    }
  }

  /** `project_lidar_to_depth`: drops dynamic classes, points behind the camera, points outside
      the depth range and points projecting outside the image (returning an all-zero map as soon
      as one of the first three stages leaves nothing), then writes each remaining point's depth
      to its rounded pixel, keeping the nearest, and encodes the map in millimetres. */
  method ProjectLidarToDepth(pointsWorld: seq<Vec3>, labels: seq<int>, w2c: Mat4, k: Mat3,
                             imageShape: (nat, nat), dynamicClasses: Option<seq<int>>,
                             depthRange: (real, real))
    returns (r: Result<seq<seq<int>>, DepthError>)
    ensures r == ExpectedDepth(pointsWorld, labels, w2c, k, imageShape, FilterOf(dynamicClasses, depthRange))
  {
    var (h, w) := imageShape;
    var f := FilterOf(dynamicClasses, depthRange);
    if |labels| != |pointsWorld| {
      return Err(LabelCountMismatch);
    }
    ghost var hits := Candidates(pointsWorld, labels, w2c, k, h, w, f);
    ghost var all := MapSeq(CameraOf(w2c), pointsWorld);
    ghost var m1 := MapSeq(StaticOf(f.dynamic), labels);
    ghost var m2 := And(m1, MapSeq(InFrontOf(), all));
    ghost var m3 := And(m2, MapSeq(InRangeOf(f.minDepth, f.maxDepth), MapSeq(DepthOf(), all)));
    ghost var m4 := And(m3, MapSeq(InImageOf(h, w), MapSeq(PixelOf(k), all)));
    MaskIsStaged(pointsWorld, labels, w2c, k, h, w, f);
    CandidatesContribute(pointsWorld, labels, w2c, k, h, w, f);

    var staticPoints := Select(pointsWorld, MapSeq(StaticOf(f.dynamic), labels));
    if |staticPoints| == 0 {
      NoCandidatesZero(hits, h, w);
      return Ok(ZeroRaster(h, w));
    }
    var cams := MapSeq(CameraOf(w2c), staticPoints);
    var front := Select(cams, MapSeq(InFrontOf(), cams));
    StagesFront(pointsWorld, w2c, m1);
    if |front| == 0 {
      NoCandidatesZero(hits, h, w);
      return Ok(ZeroRaster(h, w));
    }
    var depths := MapSeq(DepthOf(), front);
    var depthValid := MapSeq(InRangeOf(f.minDepth, f.maxDepth), depths);
    var inRange := Select(front, depthValid);
    var rangeDepths := Select(depths, depthValid);
    StagesRange(all, m2, f.minDepth, f.maxDepth);
    if |inRange| == 0 {
      NoCandidatesZero(hits, h, w);
      return Ok(ZeroRaster(h, w));
    }
    var projected := MapSeq(PixelOf(k), inRange);
    var inBounds := MapSeq(InImageOf(h, w), projected);
    var uv := Select(projected, inBounds);
    var finalDepths := Select(rangeDepths, inBounds);
    StagesBounds(all, m3, k, h, w);
    CandidatesAre(all, m4, k, hits);
    assert Zip(uv, finalDepths) == hits;
    var grid := FillDepthMap(uv, finalDepths, h, w);
    r := Ok(ToMillimetres(grid));
  }

  /** The contributing mask is the four stage masks combined in the order the stages run, and
      each stage lets through no more points than the one before. */
  lemma MaskIsStaged(points: seq<Vec3>, labels: seq<int>, w2c: Mat4, k: Mat3, h: nat, w: nat, f: DepthFilter)
    requires |labels| == |points|
    ensures var all := MapSeq(CameraOf(w2c), points);
      var m1 := MapSeq(StaticOf(f.dynamic), labels);
      var m2 := And(m1, MapSeq(InFrontOf(), all));
      var m3 := And(m2, MapSeq(InRangeOf(f.minDepth, f.maxDepth), MapSeq(DepthOf(), all)));
      var m4 := And(m3, MapSeq(InImageOf(h, w), MapSeq(PixelOf(k), all)));
      && m4 == ContributingMask(points, labels, w2c, k, h, w, f)
      && Count(m4) <= Count(m3) <= Count(m2) <= Count(m1)
  {
    var all := MapSeq(CameraOf(w2c), points);
    var m1 := MapSeq(StaticOf(f.dynamic), labels);
    var m2 := And(m1, MapSeq(InFrontOf(), all));
    var m3 := And(m2, MapSeq(InRangeOf(f.minDepth, f.maxDepth), MapSeq(DepthOf(), all)));
    CountAnd(m1, MapSeq(InFrontOf(), all));
    CountAnd(m2, MapSeq(InRangeOf(f.minDepth, f.maxDepth), MapSeq(DepthOf(), all)));
    CountAnd(m3, MapSeq(InImageOf(h, w), MapSeq(PixelOf(k), all)));
  }

  /** Stage two in terms of all points: the survivors in front of the camera are the points
      selected by `static & (z > 0)`. */
  lemma StagesFront(points: seq<Vec3>, w2c: Mat4, m1: seq<bool>)
    requires |m1| == |points|
    ensures var all := MapSeq(CameraOf(w2c), points);
      var cams := MapSeq(CameraOf(w2c), Select(points, m1));
      && cams == Select(all, m1)
      && Select(cams, MapSeq(InFrontOf(), cams)) == Select(all, And(m1, MapSeq(InFrontOf(), all)))
  {
    var all := MapSeq(CameraOf(w2c), points);
    SelectMap(CameraOf(w2c), points, m1);
    SelectMap(InFrontOf(), all, m1);
    SelectAnd(all, m1, MapSeq(InFrontOf(), all));
  }

  /** Stage three: the depth filter applied to the survivors of stage two. */
  lemma StagesRange(all: seq<Vec3>, m2: seq<bool>, minDepth: real, maxDepth: real)
    requires |m2| == |all|
    ensures var front := Select(all, m2);
      var depths := MapSeq(DepthOf(), front);
      var depthValid := MapSeq(InRangeOf(minDepth, maxDepth), depths);
      var m3 := And(m2, MapSeq(InRangeOf(minDepth, maxDepth), MapSeq(DepthOf(), all)));
      && Select(front, depthValid) == Select(all, m3)
      && Select(depths, depthValid) == Select(MapSeq(DepthOf(), all), m3)
  {
    var ds := MapSeq(DepthOf(), all);
    var rs := MapSeq(InRangeOf(minDepth, maxDepth), ds);
    SelectMap(DepthOf(), all, m2);
    SelectMap(InRangeOf(minDepth, maxDepth), ds, m2);
    SelectAnd(all, m2, rs);
    SelectAnd(ds, m2, rs);
  }

  /** Stage four: the bounds test applied to the projections of the survivors of stage three. */
  lemma StagesBounds(all: seq<Vec3>, m3: seq<bool>, k: Mat3, h: nat, w: nat)
    requires |m3| == |all|
    ensures var inRange := Select(all, m3);
      var projected := MapSeq(PixelOf(k), inRange);
      var inBounds := MapSeq(InImageOf(h, w), projected);
      var bs := MapSeq(InImageOf(h, w), MapSeq(PixelOf(k), all));
      var m4 := And(m3, bs);
      && |inBounds| == Count(m3)
      && Select(projected, inBounds) == Select(MapSeq(PixelOf(k), all), m4)
      && Select(Select(MapSeq(DepthOf(), all), m3), inBounds) == Select(MapSeq(DepthOf(), all), m4)
  {
    var ps := MapSeq(PixelOf(k), all);
    var bs := MapSeq(InImageOf(h, w), ps);
    SelectMap(PixelOf(k), all, m3);
    SelectMap(InImageOf(h, w), ps, m3);
    SelectAnd(ps, m3, bs);
    SelectAnd(MapSeq(DepthOf(), all), m3, bs);
  }

  /** The projections and depths reaching the loop are, entry by entry, the candidates. */
  lemma CandidatesAre(all: seq<Vec3>, m4: seq<bool>, k: Mat3, hits: seq<Hit>)
    requires |m4| == |all|
    requires hits == MapSeq(HitOf(k), Select(all, m4))
    ensures var uv := Select(MapSeq(PixelOf(k), all), m4);
      var ds := Select(MapSeq(DepthOf(), all), m4);
      |uv| == |ds| == |hits|
      && forall j :: 0 <= j < |hits| ==> uv[j] == hits[j].pixel && ds[j] == hits[j].depth
  {
    SelectMap(PixelOf(k), all, m4);
    SelectMap(DepthOf(), all, m4);
  }
}
