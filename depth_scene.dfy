/** The scene-level driver of the depth maps: `generate_depth_maps_for_scene` walks a scene's
    sample chain, projects each keyframe's static LiDAR points into its front-camera image and
    records `depth/NNNN.png` under the frame index (src/nuscenes_gs/depth.py). */
module DepthScene {
  import opened Wrappers
  import opened LinAlg
  import opened Names
  import opened Scenes
  import Masks
  import Depth

  /** What `load_lidar_points_and_labels` reads for one lidar token: the points in the lidar
      frame and one semantic label per point. */
  datatype LidarScan = LidarScan(points: seq<Vec3>, labels: seq<int>)

  /** The files the walk reads: point clouds with labels by lidar sample_data token (a token
      without an entry cannot be loaded), and image sizes as (height, width) by camera file name
      (a name without an entry cannot be opened). */
  datatype Readings = Readings(scans: map<string, LidarScan>, imageSizes: map<string, (nat, nat)>)

  /** The keyword arguments passed on to `project_lidar_to_depth`. */
  datatype DepthOptions = DepthOptions(dynamicClasses: Option<seq<int>>, depthRange: (real, real))

  /** One `cv2.imwrite`: the path relative to the output directory and the uint16 raster. */
  datatype Written = Written(path: string, raster: seq<seq<int>>)

  /** What the function leaves behind: the files it wrote, in order, and then either what it
      returns (`depth_paths`) or the error it raised. Files written before an error stay on
      disk. */
  datatype DepthOutput = DepthOutput(written: seq<Written>, result: Result<map<nat, string>, Error>)

  /** The raster of one sample, reading its records in the order the loop body does:
      both channel tokens, both sample_data records, the point cloud, the lidar's ego pose and
      calibration, the camera's ego pose and calibration, `compute_w2c`, the image size, and
      finally the projection, which needs a 3×3 intrinsic matrix. */
  function FrameDepth(db: Database, sample: Sample, files: Readings, opts: DepthOptions)
    : (r: Result<seq<seq<int>>, Error>)
  {
    if FrontCamera !in sample.data then Err(KeyError("sample.data", FrontCamera))
    else if TopLidar !in sample.data then Err(KeyError("sample.data", TopLidar))
    else
      var camToken := sample.data[FrontCamera];
      var lidarToken := sample.data[TopLidar];
      if camToken !in db.sampleData then Err(KeyError("sample_data", camToken))
      else if lidarToken !in db.sampleData then Err(KeyError("sample_data", lidarToken))
      else
        var camData := db.sampleData[camToken];
        var lidarData := db.sampleData[lidarToken];
        if lidarToken !in files.scans then Err(LidarUnreadable(lidarToken))
        else if lidarData.egoPoseToken !in db.egoPoses then Err(KeyError("ego_pose", lidarData.egoPoseToken))
        else if lidarData.calibratedSensorToken !in db.calibratedSensors then
          Err(KeyError("calibrated_sensor", lidarData.calibratedSensorToken))
        else if camData.egoPoseToken !in db.egoPoses then Err(KeyError("ego_pose", camData.egoPoseToken))
        else if camData.calibratedSensorToken !in db.calibratedSensors then
          Err(KeyError("calibrated_sensor", camData.calibratedSensorToken))
        else
          var scan := files.scans[lidarToken];
          var pointsWorld := Masks.TransformLidarToWorld(scan.points, db.egoPoses[lidarData.egoPoseToken],
                                                         db.calibratedSensors[lidarData.calibratedSensorToken].pose);
          var camCalib := db.calibratedSensors[camData.calibratedSensorToken];
          match Masks.ComputeW2C(db.egoPoses[camData.egoPoseToken], camCalib.pose)
          case Err(_) => Err(SingularMatrix)
          case Ok(w2c) =>
            if camData.filename !in files.imageSizes then Err(ImageUnreadable(camData.filename))
            else if !IsSquare(camCalib.cameraIntrinsic, 3) then Err(IntrinsicIndexError)
            else
              match Depth.ExpectedDepth(pointsWorld, scan.labels, w2c, camCalib.cameraIntrinsic,
                                        files.imageSizes[camData.filename],
                                        Depth.FilterOf(opts.dynamicClasses, opts.depthRange))
              case Err(_) => Err(LabelCountMismatch)
              case Ok(raster) => Ok(raster)
  }

  /** A raster is as large as the image it belongs to: one row per pixel row, one entry per
      pixel column. */
  lemma FrameDepthShape(db: Database, sample: Sample, files: Readings, opts: DepthOptions)
    requires FrameDepth(db, sample, files, opts).Ok?
    ensures var raster := FrameDepth(db, sample, files, opts).value;
      var camData := db.sampleData[sample.data[FrontCamera]];
      && camData.filename in files.imageSizes
      && var (h, w) := files.imageSizes[camData.filename];
      && |raster| == h
      && forall v :: 0 <= v < h ==> |raster[v]| == w
  {
  }

  /** The label error is raised only for a scan whose labels and points differ in number. */
  lemma FrameDepthLabels(db: Database, sample: Sample, files: Readings, opts: DepthOptions)
    requires FrameDepth(db, sample, files, opts) == Err(LabelCountMismatch)
    ensures var scan := files.scans[sample.data[TopLidar]];
      |scan.labels| != |scan.points|
  {
  }

  /** FrameDepth with the files and options fixed: what the loop body computes for a sample. */
  function FrameDepthOf(db: Database, files: Readings, opts: DepthOptions): Sample -> Result<seq<seq<int>>, Error> {
    sample => FrameDepth(db, sample, files, opts)
  }

  /** The rasters of the samples the loop visits, in chain order, `frame` being the raster
      computation of one sample. */
  function DepthWalk(db: Database, token: string, steps: nat, frame: Sample -> Result<seq<seq<int>>, Error>)
    : (r: Result<seq<seq<seq<int>>>, Error>)
    requires EndsWithin(db, token, steps)
    decreases steps
  {
    if token == "" then Ok([])
    else if token !in db.samples then Err(KeyError("sample", token))
    else
      match frame(db.samples[token])
      case Err(e) => Err(e)
      case Ok(raster) =>
        match DepthWalk(db, db.samples[token].next, steps - 1, frame)
        case Err(e) => Err(e)
        case Ok(rest) => Ok([raster] + rest)
  }

  /** The rasters of the iterations that run to completion before the walk stops: all of them
      when the walk succeeds, otherwise those before the sample that fails. Each of these
      iterations has written its file. */
  function DepthDone(db: Database, token: string, steps: nat, frame: Sample -> Result<seq<seq<int>>, Error>)
    : seq<seq<seq<int>>>
    requires EndsWithin(db, token, steps)
    decreases steps
  {
    if token == "" || token !in db.samples then []
    else
      match frame(db.samples[token])
      case Err(_) => []
      case Ok(raster) => [raster] + DepthDone(db, db.samples[token].next, steps - 1, frame)
  }

  /** `depth_paths` after n frames: key i for i < n, mapped to `depth/NNNN.png`. */
  function PathsOf(n: nat): map<nat, string> {
    map i: nat | i < n :: DepthPath(i)
  }

  /** The files written for the rasters of n frames, one per frame in frame order. */
  function WrittenOf(rasters: seq<seq<seq<int>>>): seq<Written> {
    seq(|rasters|, i requires 0 <= i < |rasters| => Written(DepthPath(i), rasters[i]))
  }

  /** What `generate_depth_maps_for_scene` writes and returns. A missing scene raises before
      anything is written; an error inside the loop keeps the files written before it. */
  function ExpectedDepthMaps(db: Database, sceneToken: string, steps: nat, files: Readings,
                             opts: DepthOptions): DepthOutput
    requires SceneEnds(db, sceneToken, steps)
  {
    if sceneToken !in db.scenes then DepthOutput([], Err(KeyError("scene", sceneToken)))
    else
      var first := db.scenes[sceneToken].firstSampleToken;
      var frame := FrameDepthOf(db, files, opts);
      var written := WrittenOf(DepthDone(db, first, steps, frame));
      match DepthWalk(db, first, steps, frame)
      case Err(e) => DepthOutput(written, Err(e))
      case Ok(rasters) => DepthOutput(written, Ok(PathsOf(|rasters|)))
  }

  /** The loop body up to the raster: the lookups in source order, the point transform,
      `compute_w2c` and `project_lidar_to_depth`. */
  method DepthMapOfSample(db: Database, sample: Sample, files: Readings, opts: DepthOptions)
    returns (r: Result<seq<seq<int>>, Error>)
    ensures r == FrameDepth(db, sample, files, opts)
  {
    if FrontCamera !in sample.data {
      return Err(KeyError("sample.data", FrontCamera));
    }
    if TopLidar !in sample.data {
      return Err(KeyError("sample.data", TopLidar));
    }
    var camToken := sample.data[FrontCamera];
    var lidarToken := sample.data[TopLidar];
    if camToken !in db.sampleData {
      return Err(KeyError("sample_data", camToken));
    }
    if lidarToken !in db.sampleData {
      return Err(KeyError("sample_data", lidarToken));
    }
    var camData := db.sampleData[camToken];
    var lidarData := db.sampleData[lidarToken];
    if lidarToken !in files.scans {
      return Err(LidarUnreadable(lidarToken));
    }
    var scan := files.scans[lidarToken];
    if lidarData.egoPoseToken !in db.egoPoses {
      return Err(KeyError("ego_pose", lidarData.egoPoseToken));
    }
    if lidarData.calibratedSensorToken !in db.calibratedSensors {
      return Err(KeyError("calibrated_sensor", lidarData.calibratedSensorToken));
    }
    var pointsWorld := Masks.TransformLidarToWorld(scan.points, db.egoPoses[lidarData.egoPoseToken],
                                                   db.calibratedSensors[lidarData.calibratedSensorToken].pose);
    if camData.egoPoseToken !in db.egoPoses {
      return Err(KeyError("ego_pose", camData.egoPoseToken));
    }
    if camData.calibratedSensorToken !in db.calibratedSensors {
      return Err(KeyError("calibrated_sensor", camData.calibratedSensorToken));
    }
    var camCalib := db.calibratedSensors[camData.calibratedSensorToken];
    var w2c := Masks.ComputeW2C(db.egoPoses[camData.egoPoseToken], camCalib.pose);
    if w2c.Err? {
      return Err(SingularMatrix);
    }
    if camData.filename !in files.imageSizes {
      return Err(ImageUnreadable(camData.filename));
    }
    if !IsSquare(camCalib.cameraIntrinsic, 3) {
      return Err(IntrinsicIndexError);
    }
    var depthMap := Depth.ProjectLidarToDepth(pointsWorld, scan.labels, w2c.value, camCalib.cameraIntrinsic,
                                              files.imageSizes[camData.filename],
                                              opts.dynamicClasses, opts.depthRange);
    if depthMap.Err? {
      return Err(LabelCountMismatch);
    }
    r := Ok(depthMap.value);
  }

  /** Rasters of a prefix already processed, followed by the rest of the walk. */
  function PrependRasters(done: seq<seq<seq<int>>>, rest: Result<seq<seq<seq<int>>>, Error>)
    : Result<seq<seq<seq<int>>>, Error>
  {
    match rest
    case Err(e) => Err(e)
    case Ok(rasters) => Ok(done + rasters)
  }

  /** The loop's invariant after the rasters `done` were produced: the walk from the first
      sample, and the iterations it completes, are `done` followed by those from `token`, and
      the dictionary and the written files cover exactly the frames done. */
  ghost predicate DepthProgress(db: Database, firstToken: string, steps: nat, frame: Sample -> Result<seq<seq<int>>, Error>,
                                token: string, done: seq<seq<seq<int>>>,
                                paths: map<nat, string>, written: seq<Written>)
  {
    && |done| <= steps
    && EndsWithin(db, firstToken, steps)
    && EndsWithin(db, token, steps - |done|)
    && DepthWalk(db, firstToken, steps, frame) == PrependRasters(done, DepthWalk(db, token, steps - |done|, frame))
    && DepthDone(db, firstToken, steps, frame) == done + DepthDone(db, token, steps - |done|, frame)
    && paths == PathsOf(|done|)
    && written == WrittenOf(done)
  }

  /** `generate_depth_maps_for_scene`: for each sample of the chain, the raster of its front
      camera is written to `depth/NNNN.png` and the path is recorded under the frame index. */
  method GenerateDepthMapsForScene(db: Database, sceneToken: string, files: Readings,
                                   opts: DepthOptions, ghost steps: nat)
    returns (r: DepthOutput)
    requires SceneEnds(db, sceneToken, steps)
    ensures r == ExpectedDepthMaps(db, sceneToken, steps, files, opts)
  {
    if sceneToken !in db.scenes {
      return DepthOutput([], Err(KeyError("scene", sceneToken)));
    }
    var firstToken := db.scenes[sceneToken].firstSampleToken;
    ghost var frame := FrameDepthOf(db, files, opts);
    var depthPaths: map<nat, string> := map[];
    var written: seq<Written> := [];
    var token := firstToken;
    var frameIdx: nat := 0;
    ghost var done: seq<seq<seq<int>>> := [];
    StartDepthWalk(db, firstToken, steps, frame);
    while token != ""
      invariant frameIdx == |done|
      invariant DepthProgress(db, firstToken, steps, frame, token, done, depthPaths, written)
      decreases steps - frameIdx
    {
      if token !in db.samples {
        DepthWalkFails(db, firstToken, steps, frame, token, done, depthPaths, written, KeyError("sample", token));
        return DepthOutput(written, Err(KeyError("sample", token)));
      }
      var sample := db.samples[token];
      var depthMap := DepthMapOfSample(db, sample, files, opts);
      assert frame(sample) == depthMap;
      if depthMap.Err? {
        DepthWalkFails(db, firstToken, steps, frame, token, done, depthPaths, written, depthMap.error);
        return DepthOutput(written, Err(depthMap.error));
      }
      var depthPath := DepthPath(frameIdx);
      DepthAdvance(db, firstToken, steps, frame, token, done, depthPaths, written, depthMap.value);
      written := written + [Written(depthPath, depthMap.value)];
      depthPaths := depthPaths[frameIdx := depthPath];
      done := done + [depthMap.value];
      frameIdx := frameIdx + 1;
      token := sample.next;
    }
    DepthWalkEnds(db, firstToken, steps, frame, done, depthPaths, written);
    r := DepthOutput(written, Ok(depthPaths));
  }

  lemma {:induction false} StartDepthWalk(db: Database, firstToken: string, steps: nat, frame: Sample -> Result<seq<seq<int>>, Error>)
    requires EndsWithin(db, firstToken, steps)
    ensures DepthProgress(db, firstToken, steps, frame, firstToken, [], map[], [])
  {
    var rest := DepthWalk(db, firstToken, steps, frame);
    if rest.Ok? {
      assert [] + rest.value == rest.value;
    }
    assert [] + DepthDone(db, firstToken, steps, frame) == DepthDone(db, firstToken, steps, frame);
    assert PathsOf(0) == map[];
    assert WrittenOf([]) == [];
  }

  /** A missing sample or a failing frame ends the whole walk with that error, after the
      iterations done so far. */
  lemma {:induction false} DepthWalkFails(db: Database, firstToken: string, steps: nat, frame: Sample -> Result<seq<seq<int>>, Error>,
                                          token: string, done: seq<seq<seq<int>>>,
                                          paths: map<nat, string>, written: seq<Written>, e: Error)
    requires DepthProgress(db, firstToken, steps, frame, token, done, paths, written) && token != ""
    requires || (token !in db.samples && e == KeyError("sample", token))
             || (token in db.samples && frame(db.samples[token]) == Err(e))
    ensures DepthWalk(db, firstToken, steps, frame) == Err(e)
    ensures DepthDone(db, firstToken, steps, frame) == done
  {
    assert done + [] == done;
  }

  /** One more sample with a raster moves from the rest of the walk to the part done; the
      dictionary gains its index and the written files its raster. */
  lemma {:induction false} DepthAdvance(db: Database, firstToken: string, steps: nat, frame: Sample -> Result<seq<seq<int>>, Error>,
                                        token: string, done: seq<seq<seq<int>>>,
                                        paths: map<nat, string>, written: seq<Written>, raster: seq<seq<int>>)
    requires DepthProgress(db, firstToken, steps, frame, token, done, paths, written) && token != ""
    requires token in db.samples && frame(db.samples[token]) == Ok(raster)
    ensures |done| < steps
    ensures DepthProgress(db, firstToken, steps, frame, db.samples[token].next, done + [raster],
                          paths[|done| := DepthPath(|done|)], written + [Written(DepthPath(|done|), raster)])
  {
    var n := |done|;
    var next := db.samples[token].next;
    var rest := DepthWalk(db, next, steps - n - 1, frame);
    if rest.Ok? {
      assert done + ([raster] + rest.value) == (done + [raster]) + rest.value;
    }
    var more := DepthDone(db, next, steps - n - 1, frame);
    assert done + ([raster] + more) == (done + [raster]) + more;
    PathsGrow(n);
    WrittenGrows(done, raster);
  }

  lemma PathsGrow(n: nat)
    ensures PathsOf(n)[n := DepthPath(n)] == PathsOf(n + 1)
  {
  }

  lemma WrittenGrows(done: seq<seq<seq<int>>>, raster: seq<seq<int>>)
    ensures WrittenOf(done) + [Written(DepthPath(|done|), raster)] == WrittenOf(done + [raster])
  {
    var longer := done + [raster];
    var lhs := WrittenOf(done) + [Written(DepthPath(|done|), raster)];
    assert |lhs| == |longer|;
    forall i | 0 <= i < |longer| ensures lhs[i] == WrittenOf(longer)[i] {
      if i < |done| {
        assert longer[i] == done[i];
      }
    }
  }

  /** A walk whose rest is empty produced exactly the rasters done. */
  lemma {:induction false} DepthWalkEnds(db: Database, firstToken: string, steps: nat, frame: Sample -> Result<seq<seq<int>>, Error>,
                                         done: seq<seq<seq<int>>>, paths: map<nat, string>, written: seq<Written>)
    requires DepthProgress(db, firstToken, steps, frame, "", done, paths, written)
    ensures DepthWalk(db, firstToken, steps, frame) == Ok(done)
    ensures DepthDone(db, firstToken, steps, frame) == done
    ensures paths == PathsOf(|done|) && written == WrittenOf(done)
  {
    assert done + [] == done;
  }

  // ---------------------------------------------------------------------------------------
  // What the dictionary and the written files contain

  /** A successful walk has one raster per chain sample, in chain order, each computed from
      that sample. */
  lemma {:induction false} DepthWalkFollowsChain(db: Database, token: string, steps: nat, frame: Sample -> Result<seq<seq<int>>, Error>)
    requires EndsWithin(db, token, steps)
    requires DepthWalk(db, token, steps, frame).Ok?
    ensures var rasters := DepthWalk(db, token, steps, frame).value;
      var chain := Chain(db, token, steps);
      && |rasters| == |chain|
      && forall i :: 0 <= i < |rasters| ==> frame(db.samples[chain[i]]) == Ok(rasters[i])
    decreases steps
  {
    if token != "" {
      var next := db.samples[token].next;
      DepthWalkFollowsChain(db, next, steps - 1, frame);
      var rasters := DepthWalk(db, token, steps, frame).value;
      var rest := DepthWalk(db, next, steps - 1, frame).value;
      assert rasters == [rasters[0]] + rest;
      assert Chain(db, token, steps) == [token] + Chain(db, next, steps - 1);
    }
  }

  /** A walk that succeeds completes every iteration. */
  lemma {:induction false} DepthDoneOnSuccess(db: Database, token: string, steps: nat,
                                              frame: Sample -> Result<seq<seq<int>>, Error>)
    requires EndsWithin(db, token, steps)
    requires DepthWalk(db, token, steps, frame).Ok?
    ensures DepthDone(db, token, steps, frame) == DepthWalk(db, token, steps, frame).value
    decreases steps
  {
    if token != "" {
      DepthDoneOnSuccess(db, db.samples[token].next, steps - 1, frame);
    }
  }

  /** The completed iterations are those of a prefix of the chain, each producing its own
      sample's raster; a walk that fails inside the chain fails at the first sample after that
      prefix, with that sample's error. */
  lemma {:induction false} DepthDoneFollowsChain(db: Database, token: string, steps: nat,
                                                 frame: Sample -> Result<seq<seq<int>>, Error>)
    requires EndsWithin(db, token, steps)
    ensures var done := DepthDone(db, token, steps, frame);
      var chain := Chain(db, token, steps);
      var walk := DepthWalk(db, token, steps, frame);
      && |done| <= |chain|
      && (forall i :: 0 <= i < |done| ==> frame(db.samples[chain[i]]) == Ok(done[i]))
      && (walk.Err? && |done| < |chain| ==> frame(db.samples[chain[|done|]]) == Err(walk.error))
    decreases steps
  {
    if token != "" && token in db.samples {
      var next := db.samples[token].next;
      DepthDoneFollowsChain(db, next, steps - 1, frame);
      assert Chain(db, token, steps) == [token] + Chain(db, next, steps - 1);
      var done := DepthDone(db, token, steps, frame);
      if |done| > 0 {
        assert done == [done[0]] + DepthDone(db, next, steps - 1, frame);
      }
    }
  }

  /** The files written for the completed iterations name `depth/NNNN.png` in frame order and
      hold the rasters of a prefix of the chain; a walk that fails inside the chain fails at
      the sample right after that prefix. */
  lemma {:induction false} DepthWrittenFollowsChain(db: Database, token: string, steps: nat,
                                                    frame: Sample -> Result<seq<seq<int>>, Error>)
    requires EndsWithin(db, token, steps)
    ensures var written := WrittenOf(DepthDone(db, token, steps, frame));
      var chain := Chain(db, token, steps);
      var walk := DepthWalk(db, token, steps, frame);
      && |written| <= |chain|
      && (forall i :: 0 <= i < |written| ==>
            written[i].path == DepthPath(i) && frame(db.samples[chain[i]]) == Ok(written[i].raster))
      && (walk.Err? && |written| < |chain| ==> frame(db.samples[chain[|written|]]) == Err(walk.error))
  {
    DepthDoneFollowsChain(db, token, steps, frame);
  }

  /** Whatever the outcome, the files already written stay written: the i-th is `depth/NNNN.png`
      holding the raster of the i-th sample of the chain, for a prefix of the chain. A run that
      raises inside the chain raises the error of the first sample after that prefix; a
      missing scene writes nothing. */
  lemma {:induction false} DepthMapsWritten(db: Database, sceneToken: string, steps: nat,
                                            files: Readings, opts: DepthOptions)
    requires SceneEnds(db, sceneToken, steps)
    ensures var out := ExpectedDepthMaps(db, sceneToken, steps, files, opts);
      && (sceneToken !in db.scenes ==> out.written == [] && out.result.Err?)
      && (sceneToken in db.scenes ==>
            var chain := Chain(db, db.scenes[sceneToken].firstSampleToken, steps);
            && |out.written| <= |chain|
            && (forall i :: 0 <= i < |out.written| ==>
                  && out.written[i].path == DepthPath(i)
                  && FrameDepth(db, db.samples[chain[i]], files, opts) == Ok(out.written[i].raster))
            && (out.result.Err? && |out.written| < |chain| ==>
                  FrameDepth(db, db.samples[chain[|out.written|]], files, opts) == Err(out.result.error)))
  {
    if sceneToken in db.scenes {
      var first := db.scenes[sceneToken].firstSampleToken;
      var frame := FrameDepthOf(db, files, opts);
      DepthWrittenFollowsChain(db, first, steps, frame);
      var out := ExpectedDepthMaps(db, sceneToken, steps, files, opts);
      assert out.written == WrittenOf(DepthDone(db, first, steps, frame));
      assert out.result.Err? ==> DepthWalk(db, first, steps, frame) == Err(out.result.error);
    }
  }

  /** A successful run returns exactly the keys 0..n-1 for the n samples of the chain, key i
      mapped to `depth/NNNN.png`, no two keys sharing a path; the i-th file written is that
      path holding the raster of the i-th sample of the chain. */
  lemma {:induction false} DepthMapsContents(db: Database, sceneToken: string, steps: nat,
                                             files: Readings, opts: DepthOptions)
    requires SceneEnds(db, sceneToken, steps)
    requires ExpectedDepthMaps(db, sceneToken, steps, files, opts).result.Ok?
    ensures sceneToken in db.scenes
    ensures var out := ExpectedDepthMaps(db, sceneToken, steps, files, opts);
      var paths := out.result.value;
      var chain := Chain(db, db.scenes[sceneToken].firstSampleToken, steps);
      && (forall i: nat :: i in paths <==> i < |chain|)
      && (forall i :: i in paths ==> paths[i] == DepthPath(i))
      && (forall i, j :: i in paths && j in paths && i != j ==> paths[i] != paths[j])
      && |out.written| == |chain|
      && forall i :: 0 <= i < |chain| ==>
           && out.written[i].path == DepthPath(i)
           && FrameDepth(db, db.samples[chain[i]], files, opts) == Ok(out.written[i].raster)
  {
    var first := db.scenes[sceneToken].firstSampleToken;
    var frame := FrameDepthOf(db, files, opts);
    DepthWalkFollowsChain(db, first, steps, frame);
    DepthDoneOnSuccess(db, first, steps, frame);
    var out := ExpectedDepthMaps(db, sceneToken, steps, files, opts);
    var paths := out.result.value;
    var chain := Chain(db, first, steps);
    forall i | 0 <= i < |chain|
      ensures FrameDepth(db, db.samples[chain[i]], files, opts) == Ok(out.written[i].raster)
    {
      assert frame(db.samples[chain[i]]) == FrameDepth(db, db.samples[chain[i]], files, opts);
    }
    forall i, j | i in paths && j in paths && i != j ensures paths[i] != paths[j] {
      PathsInjective(i, j);
    }
  }
}
