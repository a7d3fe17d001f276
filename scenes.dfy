/** The nuScenes records the exporters read (`nusc.get(table, token)` as a read-only lookup by
    token) and the walk along a scene's sample chain that all of them perform
    (src/nuscenes_gs/nerfstudio_export.py, src/nuscenes_gs/depth.py). */
module Scenes {
  import opened Wrappers
  import opened LinAlg
  import opened Poses

  datatype Scene = Scene(firstSampleToken: string)

  /** A keyframe: `next` is "" after the last keyframe of its scene; `data` maps channel names
      ("CAM_FRONT", "LIDAR_TOP", ...) to sample_data tokens. */
  datatype Sample = Sample(next: string, data: map<string, string>)

  /** One sensor reading: the records it refers to, its file and, for an image, its size. */
  datatype SampleData = SampleData(egoPoseToken: string, calibratedSensorToken: string,
                                   filename: string, width: int, height: int)

  /** A sensor's mounting pose and its intrinsic matrix as nested lists (empty for a lidar). */
  datatype CalibratedSensor = CalibratedSensor(pose: Pose, cameraIntrinsic: seq<seq<real>>)

  datatype Database = Database(
    scenes: map<string, Scene>,
    samples: map<string, Sample>,
    sampleData: map<string, SampleData>,
    egoPoses: map<string, Pose>,
    calibratedSensors: map<string, CalibratedSensor>)

  /** The ways the exporters stop early. */
  datatype Error =
    | KeyError(table: string, key: string)  // a missing record or a missing channel
    | IntrinsicIndexError                   // the intrinsic matrix lacks an entry that is read
    | EmptyScene                            // `**intrinsic` while `intrinsic` is still None
    | MaskGeneratorMissing                  // the generator's import fails
    | MaskGeneratorFailed                   // the generator raises
    | LidarUnreadable(token: string)        // the point cloud or its labels cannot be loaded
    | ImageUnreadable(filename: string)     // the image size cannot be read
    | SingularMatrix                        // `np.linalg.inv` refuses w2c
    | LabelCountMismatch                    // labels and points have different lengths

  const FrontCamera: string := "CAM_FRONT"
  const TopLidar: string := "LIDAR_TOP"

  /** The chain starting at `token` ends within `steps` samples: it reaches an empty `next` or
      a token without a sample record (where the lookup raises). A cyclic chain never ends. */
  ghost predicate EndsWithin(db: Database, token: string, steps: nat)
    decreases steps
  {
    token == "" || token !in db.samples
    || (steps > 0 && EndsWithin(db, db.samples[token].next, steps - 1))
  }

  /** The walk from a scene's first sample ends (or the scene lookup itself fails). */
  ghost predicate SceneEnds(db: Database, sceneToken: string, steps: nat) {
    sceneToken in db.scenes ==> EndsWithin(db, db.scenes[sceneToken].firstSampleToken, steps)
  }

  /** The sample tokens `while sample_token:` visits, in order, up to the first empty `next`
      or the first token without a record. */
  ghost function Chain(db: Database, token: string, steps: nat): (c: seq<string>)
    requires EndsWithin(db, token, steps)
    ensures forall i :: 0 <= i < |c| ==> c[i] in db.samples && c[i] != ""
    decreases steps
  {
    if token == "" || token !in db.samples then []
    else [token] + Chain(db, db.samples[token].next, steps - 1)
  }

  /** The chain starts at the first token and each visited token is the `next` of the one
      before. */
  lemma {:induction false} ChainLinks(db: Database, token: string, steps: nat)
    requires EndsWithin(db, token, steps)
    ensures var c := Chain(db, token, steps);
      && (|c| > 0 ==> c[0] == token)
      && forall i :: 0 <= i < |c| - 1 ==> c[i + 1] == db.samples[c[i]].next
    decreases steps
  {
    if token != "" && token in db.samples {
      var next := db.samples[token].next;
      ChainLinks(db, next, steps - 1);
      var c := Chain(db, token, steps);
      assert c[1..] == Chain(db, next, steps - 1);
    }
  }

  /** The camera records one loop iteration reads for a sample. */
  datatype CameraFrame = CameraFrame(data: SampleData, egoPose: Pose, calib: CalibratedSensor)

  /** `sample["data"]["CAM_FRONT"]`, then its sample_data, ego_pose and calibrated_sensor, in
      that order; the first missing one raises. */
  function FrontCameraOf(db: Database, sample: Sample): (r: Result<CameraFrame, Error>)
    ensures r.Ok? <==>
      (FrontCamera in sample.data && sample.data[FrontCamera] in db.sampleData
       && db.sampleData[sample.data[FrontCamera]].egoPoseToken in db.egoPoses
       && db.sampleData[sample.data[FrontCamera]].calibratedSensorToken in db.calibratedSensors)
    ensures r.Ok? ==>
      && r.value.data == db.sampleData[sample.data[FrontCamera]]
      && r.value.egoPose == db.egoPoses[r.value.data.egoPoseToken]
      && r.value.calib == db.calibratedSensors[r.value.data.calibratedSensorToken]
  {
    if FrontCamera !in sample.data then Err(KeyError("sample.data", FrontCamera))
    else
      var camToken := sample.data[FrontCamera];
      if camToken !in db.sampleData then Err(KeyError("sample_data", camToken))
      else
        var camData := db.sampleData[camToken];
        if camData.egoPoseToken !in db.egoPoses then Err(KeyError("ego_pose", camData.egoPoseToken))
        else if camData.calibratedSensorToken !in db.calibratedSensors then
          Err(KeyError("calibrated_sensor", camData.calibratedSensorToken))
        else Ok(CameraFrame(camData, db.egoPoses[camData.egoPoseToken],
                            db.calibratedSensors[camData.calibratedSensorToken]))
  }

  /** `K = np.array(calib["camera_intrinsic"])` is a 2-D array holding `K[0, 0]`, `K[1, 1]`,
      `K[0, 2]` and `K[1, 2]`: rectangular, with at least two rows of at least three entries. */
  predicate IsIntrinsic(k: seq<seq<real>>) {
    |k| >= 2 && |k[0]| >= 3 && forall i :: 0 <= i < |k| ==> |k[i]| == |k[0]|
  }
}
