/** Point transforms and pinhole projection (src/nuscenes_gs/masks.py). */
module Masks {
  import opened Wrappers
  import opened LinAlg
  import opened Poses
  import opened Filters

  /** `transform_lidar_to_world`: every point goes through T_world_ego·T_ego_lidar in
      homogeneous coordinates, which is the lidar→ego transform followed by ego→world. */
  function TransformLidarToWorld(points: seq<Vec3>, egoPose: Pose, sensor: Pose): (r: seq<Vec3>)
    ensures |r| == |points|
    ensures forall i :: 0 <= i < |points| ==>
      r[i] == Apply(MakeTransform(egoPose), Apply(MakeTransform(sensor), points[i]))
  {
    var egoLidar := MakeTransform(sensor);
    var worldEgo := MakeTransform(egoPose);
    var worldLidar := Mul4(worldEgo, egoLidar);
    forall p: Vec3 ensures Apply(worldLidar, p) == Apply(worldEgo, Apply(egoLidar, p)) {
      ApplyMul(worldEgo, egoLidar, p);
    }
    seq(|points|, i requires 0 <= i < |points| => Apply(worldLidar, points[i]))
  }

  /** `np.linalg.inv` fails on a singular matrix. */
  datatype LinAlgError = SingularMatrix

  /** `compute_w2c`: the inverse of the OpenCV camera-to-world chain, with no axis flip. The
      chain is invertible exactly when both quaternions are nonzero; a zero quaternion gives a
      zero rotation block, which numpy rejects as singular. */
  function ComputeW2C(egoPose: Pose, sensor: Pose): (r: Result<Mat4, LinAlgError>)
    ensures r.Err? <==> SquaredNorm(egoPose.rotation) == 0.0 || SquaredNorm(sensor.rotation) == 0.0
    ensures r.Ok? ==> (Mul4(r.value, CameraToWorldCv(egoPose, sensor)) == Identity4
                    && Mul4(CameraToWorldCv(egoPose, sensor), r.value) == Identity4)
    ensures r.Ok? ==> r.value[3] == AffineRow
    ensures r.Err? ==> forall m: Mat4 :: Mul4(m, CameraToWorldCv(egoPose, sensor)) != Identity4
  {
    var cv := CameraToWorldCv(egoPose, sensor);
    if SquaredNorm(egoPose.rotation) == 0.0 || SquaredNorm(sensor.rotation) == 0.0 then
      CameraBlockDegenerate(egoPose, sensor);
      forall m: Mat4 ensures Mul4(m, cv) != Identity4 {
        ZeroColumnNoLeftInverse(m, cv);
      }
      Err(SingularMatrix)
    else
      CameraBlockOrthonormal(egoPose, sensor);
      RigidInverseIsInverse(cv);
      Ok(RigidInverse(cv))
  }

  /** A matrix whose column 0 is zero has no left inverse: entry (0, 0) of any product is 0. */
  lemma ZeroColumnNoLeftInverse(m: Mat4, a: Mat4)
    requires a[0][0] == 0.0 && a[1][0] == 0.0 && a[2][0] == 0.0 && a[3][0] == 0.0
    ensures Mul4(m, a)[0][0] == 0.0
  {
  }

  /** The transform is its own inverse's inverse: world→camera followed by camera→world is the
      identity on points. */
  lemma {:induction false} W2CRoundTrip(egoPose: Pose, sensor: Pose, p: Vec3)
    requires ComputeW2C(egoPose, sensor).Ok?
    ensures Apply(CameraToWorldCv(egoPose, sensor), Apply(ComputeW2C(egoPose, sensor).value, p)) == p
  {
    var cv := CameraToWorldCv(egoPose, sensor);
    var w2c := ComputeW2C(egoPose, sensor).value;
    ApplyMul(cv, w2c, p);
    ApplyIdentity(p);
  }

  lemma ApplyIdentity(p: Vec3)
    ensures Apply(Identity4, p) == p
  {
  }

  /** A projected pixel position. Dividing by a zero homogeneous coordinate gives numpy inf or
      nan, which fails every bounds comparison: such a point is never inside the image. */
  datatype Pixel = Pixel(u: real, v: real) | NonFinite

  /** `(K·p)[0:2] / (K·p)[2]` */
  function Project(k: Mat3, p: Vec3): Pixel {
    var h := MulVec3(k, p);
    if h[2] == 0.0 then NonFinite else Pixel(h[0] / h[2], h[1] / h[2])
  }

  /** The bounds test: u in [0, w) and v in [0, h), for `image_shape` = (h, w). */
  predicate InImage(px: Pixel, h: int, w: int) {
    px.Pixel? && 0.0 <= px.u < w as real && 0.0 <= px.v < h as real
  }

  /** With an intrinsic matrix whose last row is [0, 0, 1], a point in front of the camera
      always has a finite projection: u = (fx·x + s·y + cx·z) / z and likewise for v. */
  lemma {:induction false} ProjectFinite(k: Mat3, p: Vec3)
    requires k[2] == [0.0, 0.0, 1.0] && p[2] > 0.0
    ensures Project(k, p) == Pixel((k[0][0] * p[0] + k[0][1] * p[1] + k[0][2] * p[2]) / p[2],
                                   (k[1][0] * p[0] + k[1][1] * p[1] + k[1][2] * p[2]) / p[2])
  {
    var h := MulVec3(k, p);
    assert h[2] == p[2];
  }

  /** The world→camera map applied to every point. */
  function CameraOf(w2c: Mat4): Vec3 -> Vec3 {
    (p: Vec3) => Apply(w2c, p)
  }

  /** Camera z, the distance along the optical axis. */
  function DepthOf(): Vec3 -> real {
    (c: Vec3) => c[2]
  }

  function InFrontOf(): Vec3 -> bool {
    (c: Vec3) => c[2] > 0.0
  }

  function PixelOf(k: Mat3): Vec3 -> Pixel {
    (c: Vec3) => Project(k, c)
  }

  function InImageOf(h: int, w: int): Pixel -> bool {
    (px: Pixel) => InImage(px, h, w)
  }

  /** A world point is visible when it is in front of the camera and projects inside the image. */
  predicate Visible(w2c: Mat4, k: Mat3, h: int, w: int, p: Vec3) {
    Apply(w2c, p)[2] > 0.0 && InImage(Project(k, Apply(w2c, p)), h, w)
  }

  /** `project_points_to_image`. The mask covers all N input points and marks exactly the
      visible ones; `uv` and `distances` list the projections and camera depths of the visible
      points, in input order, and all distances are positive. The camera-behind test, the
      projection of the survivors and the bounds test are numpy bulk operations; clearing the
      out-of-bounds entries of the mask through `np.where` is an in-place update, done here
      index by index. */
  method ProjectPointsToImage(pointsWorld: seq<Vec3>, w2c: Mat4, k: Mat3, imageShape: (int, int))
    returns (uv: seq<Pixel>, validMask: seq<bool>, distances: seq<real>)
    ensures |validMask| == |pointsWorld|
    ensures forall i :: 0 <= i < |pointsWorld| ==>
      (validMask[i] <==> Visible(w2c, k, imageShape.0, imageShape.1, pointsWorld[i]))
    ensures uv == Select(MapSeq(PixelOf(k), MapSeq(CameraOf(w2c), pointsWorld)), validMask)
    ensures distances == Select(MapSeq(DepthOf(), MapSeq(CameraOf(w2c), pointsWorld)), validMask)
    ensures |uv| == |distances| == Count(validMask)
    ensures forall j :: 0 <= j < |distances| ==> distances[j] > 0.0
  {
    var (h, w) := imageShape;
    var cams := MapSeq(CameraOf(w2c), pointsWorld);
    var front := MapSeq(InFrontOf(), cams);
    var projected := MapSeq(PixelOf(k), Select(cams, front));
    var depths := MapSeq(DepthOf(), Select(cams, front));
    var inBounds := MapSeq(InImageOf(h, w), projected);

    var dropped := Select<nat>(Where(front), Not(inBounds));
    var mask := new bool[|front|](i requires 0 <= i < |front| => front[i]);
    DroppedInRange(front, inBounds);
    ClearPositions(mask, dropped);
    validMask := mask[..];
    uv := Select(projected, inBounds);
    distances := Select(depths, inBounds);

    MaskAfterClearing(front, inBounds, validMask);
    Survivors(pointsWorld, w2c, k, h, w, validMask);
  }

  /** What the filtered outputs are once the mask is known to be the camera-behind mask refined
      by the bounds test of the survivors. */
  lemma {:induction false} Survivors(pointsWorld: seq<Vec3>, w2c: Mat4, k: Mat3, h: int, w: int,
                                     validMask: seq<bool>)
    requires var cams := MapSeq(CameraOf(w2c), pointsWorld);
      var front := MapSeq(InFrontOf(), cams);
      validMask == Refine(front, MapSeq(InImageOf(h, w), MapSeq(PixelOf(k), Select(cams, front))))
    ensures |validMask| == |pointsWorld|
    ensures forall i :: 0 <= i < |pointsWorld| ==>
      (validMask[i] <==> Visible(w2c, k, h, w, pointsWorld[i]))
    ensures var cams := MapSeq(CameraOf(w2c), pointsWorld);
      var front := MapSeq(InFrontOf(), cams);
      var inBounds := MapSeq(InImageOf(h, w), MapSeq(PixelOf(k), Select(cams, front)));
      && Select(MapSeq(PixelOf(k), Select(cams, front)), inBounds)
         == Select(MapSeq(PixelOf(k), cams), validMask)
      && Select(MapSeq(DepthOf(), Select(cams, front)), inBounds)
         == Select(MapSeq(DepthOf(), cams), validMask)
    ensures forall j :: 0 <= j < Count(validMask) ==>
      Select(MapSeq(DepthOf(), MapSeq(CameraOf(w2c), pointsWorld)), validMask)[j] > 0.0
  {
    var cams := MapSeq(CameraOf(w2c), pointsWorld);
    var front := MapSeq(InFrontOf(), cams);
    var inBounds := MapSeq(InImageOf(h, w), MapSeq(PixelOf(k), Select(cams, front)));
    var all := MapSeq(InImageOf(h, w), MapSeq(PixelOf(k), cams));
    InBoundsOfSurvivors(cams, front, k, h, w);
    RefineSelected(front, all);
    forall i | 0 <= i < |pointsWorld|
      ensures validMask[i] <==> Visible(w2c, k, h, w, pointsWorld[i])
    {
      assert validMask[i] == (front[i] && all[i]);
    }
    SelectMap(PixelOf(k), cams, front);
    SelectSelect(MapSeq(PixelOf(k), cams), front, inBounds);
    SelectMap(DepthOf(), cams, front);
    SelectSelect(MapSeq(DepthOf(), cams), front, inBounds);
    var depths := MapSeq(DepthOf(), cams);
    forall j | 0 <= j < Count(validMask) ensures Select(depths, validMask)[j] > 0.0 {
      SelectFrom(depths, validMask, j);
      var i :| 0 <= i < |depths| && validMask[i] && Select(depths, validMask)[j] == depths[i];
      assert front[i];
    }
  }

  /** Fancy-index assignment `a[positions] = False`: the listed entries are cleared, the others
      keep their value. */
  method ClearPositions(a: array<bool>, positions: seq<nat>)
    requires forall j :: 0 <= j < |positions| ==> positions[j] < a.Length
    modifies a
    ensures forall i :: 0 <= i < a.Length ==> a[i] == (old(a[i]) && i !in positions)
  {
    var j := 0;
    while j < |positions|
      invariant 0 <= j <= |positions|
      invariant forall i :: 0 <= i < a.Length ==> a[i] == (old(a[i]) && i !in positions[..j])
    {
      a[positions[j]] := false;
      assert positions[..j + 1] == positions[..j] + [positions[j]];
      j := j + 1;
    }
    assert positions[..j] == positions;
  }

  /** The mask positions cleared by `valid_mask[valid_indices[~in_bounds]] = False` are in range. */
  lemma DroppedInRange(front: seq<bool>, inBounds: seq<bool>)
    requires |inBounds| == Count(front)
    ensures forall j :: 0 <= j < Count(Not(inBounds)) ==> Select<nat>(Where(front), Not(inBounds))[j] < |front|
  {
    SelectBounded(Where(front), Not(inBounds), |front|);
  }

  /** Membership in the cleared positions, in terms of the refined mask. */
  lemma {:induction false} InSelectedRangeAt(front: seq<bool>, inBounds: seq<bool>, i: int)
    requires |inBounds| == Count(front)
    ensures i in Select<nat>(Where(front), Not(inBounds))
        <==> 0 <= i < |front| && Refine(front, Not(inBounds))[i]
  {
    SelectSelect(Range(|front|), front, Not(inBounds));
    InSelectedRange(Refine(front, Not(inBounds)), i);
  }

  /** After clearing, the mask is `valid_mask` refined by the bounds test of the survivors. */
  lemma {:induction false} MaskAfterClearing(front: seq<bool>, inBounds: seq<bool>, mask: seq<bool>)
    requires |inBounds| == Count(front) && |mask| == |front|
    requires forall i :: 0 <= i < |mask| ==>
      mask[i] == (front[i] && i !in Select<nat>(Where(front), Not(inBounds)))
    ensures mask == Refine(front, inBounds)
  {
    forall i | 0 <= i < |mask| ensures mask[i] == Refine(front, inBounds)[i] {
      InSelectedRangeAt(front, inBounds, i);
      RefineComplement(front, inBounds, i);
    }
  }

  /** The bounds test evaluated on the projected survivors is the bounds test of every point's
      projection, selected by the survivors' mask. */
  lemma {:induction false} InBoundsOfSurvivors(cams: seq<Vec3>, front: seq<bool>, k: Mat3, h: int, w: int)
    requires |front| == |cams|
    ensures MapSeq(InImageOf(h, w), MapSeq(PixelOf(k), Select(cams, front)))
         == Select(MapSeq(InImageOf(h, w), MapSeq(PixelOf(k), cams)), front)
  {
    SelectMap(PixelOf(k), cams, front);
    SelectMap(InImageOf(h, w), MapSeq(PixelOf(k), cams), front);
  }
}
