/** Export of one scene's front camera to a Nerfstudio `transforms.json` manifest plus an
    `images/` folder (src/nuscenes_gs/nerfstudio_export.py). The three exporters share one loop;
    the masked ones add a mask path to every frame and call an external mask generator. */
module Export {
  import opened Wrappers
  import opened LinAlg
  import opened Poses
  import opened Names
  import opened Scenes

  /** One manifest frame: image path, OpenGL camera-to-world matrix, and in the masked variants
      the mask path. */
  datatype Frame = Frame(filePath: string, transformMatrix: Mat4, maskPath: Option<string>)

  /** The first frame's pinhole parameters and image size. */
  datatype Intrinsics = Intrinsics(flX: real, flY: real, cx: real, cy: real, w: int, h: int)

  /** `transforms.json`. */
  datatype Manifest = Manifest(cameraModel: string, w: int, h: int, flX: real, flY: real,
                               cx: real, cy: real, frames: seq<Frame>)

  /** `shutil.copy2(dataroot / filename, output_dir / destination)` */
  datatype Copy = Copy(source: string, destination: string)

  /** What an exporter leaves behind: the images it copied, in copy order, and then either the
      manifest it wrote or the error it raised. Copies made before an error stay on disk. */
  datatype Exported = Exported(copies: seq<Copy>, result: Result<Manifest, Error>)

  /** What a loop has gathered when it ends: frames, copies and the intrinsics (None while no
      frame has been seen). */
  datatype Collected = Collected(frames: seq<Frame>, copies: seq<Copy>, intrinsic: Option<Intrinsics>)

  /** The outcome of the external mask generator: its import fails, it raises, or it returns
      some number of masks. */
  datatype MaskGenerator = ImportFails | Raises | Returns(count: nat)

  /** The fields read off `K = np.array(calib["camera_intrinsic"])`, with the width and height of
      the same image. */
  function IntrinsicsOf(cam: CameraFrame): (i: Intrinsics)
    requires IsIntrinsic(cam.calib.cameraIntrinsic)
    ensures var k := cam.calib.cameraIntrinsic;
      i.flX == k[0][0] && i.flY == k[1][1] && i.cx == k[0][2] && i.cy == k[1][2]
    ensures i.w == cam.data.width && i.h == cam.data.height
  {
    var k := cam.calib.cameraIntrinsic;
    Intrinsics(k[0][0], k[1][1], k[0][2], k[1][2], cam.data.width, cam.data.height)
  }

  /** Frame i: `images/NNNN.jpg`, `compute_c2w` of its own ego pose and calibration, and
      `masks/NNNN.png` when masks are requested. */
  function FrameOf(i: nat, cam: CameraFrame, withMasks: bool): Frame {
    Frame(ImagePath(i), ComputeC2W(cam.egoPose, cam.calib.pose),
          if withMasks then Some(MaskPath(i)) else None)
  }

  function CopyOf(i: nat, cam: CameraFrame): Copy {
    Copy(cam.data.filename, ImagePath(i))
  }

  /** The camera records of the samples the walk visits, in chain order; the first frame's
      intrinsic matrix is read inside the loop, so an unusable one stops the walk there. */
  function Walk(db: Database, token: string, steps: nat, first: bool): (r: Result<seq<CameraFrame>, Error>)
    requires EndsWithin(db, token, steps)
    decreases steps
  {
    if token == "" then Ok([])
    else if token !in db.samples then Err(KeyError("sample", token))
    else
      match FrontCameraOf(db, db.samples[token])
      case Err(e) => Err(e)
      case Ok(cam) =>
        if first && !IsIntrinsic(cam.calib.cameraIntrinsic) then Err(IntrinsicIndexError)
        else
          match Walk(db, db.samples[token].next, steps - 1, false)
          case Err(e) => Err(e)
          case Ok(rest) => Ok([cam] + rest)
  }

  /** A successful walk has one camera frame per chain sample, in chain order, each read from
      that sample's own records, and the first frame's intrinsic matrix is usable. */
  lemma {:induction false} WalkFollowsChain(db: Database, token: string, steps: nat, first: bool)
    requires EndsWithin(db, token, steps)
    requires Walk(db, token, steps, first).Ok?
    ensures var cams := Walk(db, token, steps, first).value;
      var chain := Chain(db, token, steps);
      && |cams| == |chain|
      && (forall i :: 0 <= i < |cams| ==> FrontCameraOf(db, db.samples[chain[i]]) == Ok(cams[i]))
      && (first && |cams| > 0 ==> IsIntrinsic(cams[0].calib.cameraIntrinsic))
      && (|chain| > 0 ==> db.samples[chain[|chain| - 1]].next == "")
    decreases steps
  {
    if token != "" {
      var next := db.samples[token].next;
      WalkFollowsChain(db, next, steps - 1, false);
      var cams := Walk(db, token, steps, first).value;
      var chain := Chain(db, token, steps);
      var rest := Walk(db, next, steps - 1, false).value;
      assert cams == [cams[0]] + rest;
      assert chain == [token] + Chain(db, next, steps - 1);
    }
  }

  /** A walk fails only on a missing record or an unusable first intrinsic: when every sample
      of the chain has its records, the chain ends with an empty `next`, and the first frame's
      intrinsic matrix is usable, the walk succeeds. */
  lemma {:induction false} WalkSucceeds(db: Database, token: string, steps: nat, first: bool)
    requires EndsWithin(db, token, steps)
    requires var chain := Chain(db, token, steps);
      && (forall i :: 0 <= i < |chain| ==> FrontCameraOf(db, db.samples[chain[i]]).Ok?)
      && (|chain| == 0 ==> token == "")
      && (|chain| > 0 ==> db.samples[chain[|chain| - 1]].next == "")
      && (first && |chain| > 0 ==>
            IsIntrinsic(FrontCameraOf(db, db.samples[chain[0]]).value.calib.cameraIntrinsic))
    ensures Walk(db, token, steps, first).Ok?
    decreases steps
  {
    if token != "" {
      var chain := Chain(db, token, steps);
      assert token in db.samples;
      assert chain[0] == token;
      assert FrontCameraOf(db, db.samples[token]).Ok?;
      var next := db.samples[token].next;
      var rest := Chain(db, next, steps - 1);
      assert chain == [token] + rest;
      forall i | 0 <= i < |rest| ensures FrontCameraOf(db, db.samples[rest[i]]).Ok? {
        assert rest[i] == chain[i + 1];
      }
      if |rest| == 0 {
        assert chain[|chain| - 1] == token;
      } else {
        assert rest[|rest| - 1] == chain[|chain| - 1];
      }
      WalkSucceeds(db, next, steps - 1, false);
    }
  }

  /** Frames 0..n-1 of a walk, built one frame at a time. */
  function FramesOf(cams: seq<CameraFrame>, withMasks: bool): (fs: seq<Frame>)
    ensures |fs| == |cams|
    decreases |cams|
  {
    if |cams| == 0 then []
    else FramesOf(cams[..|cams| - 1], withMasks) + [FrameOf(|cams| - 1, cams[|cams| - 1], withMasks)]
  }

  /** Entry i of the frame list is frame i of the walk. */
  lemma {:induction false} FramesOfAt(cams: seq<CameraFrame>, withMasks: bool, i: nat)
    requires i < |cams|
    ensures FramesOf(cams, withMasks)[i] == FrameOf(i, cams[i], withMasks)
    decreases |cams|
  {
    if i < |cams| - 1 {
      FramesOfAt(cams[..|cams| - 1], withMasks, i);
    }
  }

  /** Copies 0..n-1 of a walk, built one copy at a time. */
  function CopiesOf(cams: seq<CameraFrame>): (cs: seq<Copy>)
    ensures |cs| == |cams|
    decreases |cams|
  {
    if |cams| == 0 then [] else CopiesOf(cams[..|cams| - 1]) + [CopyOf(|cams| - 1, cams[|cams| - 1])]
  }

  /** Entry i of the copy list copies sample i's image to frame i's path. */
  lemma {:induction false} CopiesOfAt(cams: seq<CameraFrame>, i: nat)
    requires i < |cams|
    ensures CopiesOf(cams)[i] == CopyOf(i, cams[i])
    decreases |cams|
  {
    if i < |cams| - 1 {
      CopiesOfAt(cams[..|cams| - 1], i);
    }
  }

  /** What a loop gathers from a successful walk. */
  function CollectedOf(cams: seq<CameraFrame>, withMasks: bool): Collected
    requires |cams| > 0 ==> IsIntrinsic(cams[0].calib.cameraIntrinsic)
  {
    Collected(FramesOf(cams, withMasks), CopiesOf(cams),
              if |cams| == 0 then None else Some(IntrinsicsOf(cams[0])))
  }

  /** The camera records of the iterations that run to completion before the walk stops: all
      of them when the walk succeeds, otherwise those before the sample that fails. Each of
      these iterations has copied its image and appended its frame. */
  function Completed(db: Database, token: string, steps: nat, first: bool): seq<CameraFrame>
    requires EndsWithin(db, token, steps)
    decreases steps
  {
    if token == "" || token !in db.samples then []
    else
      match FrontCameraOf(db, db.samples[token])
      case Err(_) => []
      case Ok(cam) =>
        if first && !IsIntrinsic(cam.calib.cameraIntrinsic) then []
        else [cam] + Completed(db, db.samples[token].next, steps - 1, false)
  }

  /** The first completed iteration read a usable intrinsic matrix. */
  lemma {:induction false} CompletedFirstIntrinsic(db: Database, token: string, steps: nat)
    requires EndsWithin(db, token, steps)
    ensures var cams := Completed(db, token, steps, true);
      |cams| > 0 ==> IsIntrinsic(cams[0].calib.cameraIntrinsic)
  {
  }

  /** A walk that succeeds completes every iteration. */
  lemma {:induction false} CompletedOnSuccess(db: Database, token: string, steps: nat, first: bool)
    requires EndsWithin(db, token, steps)
    requires Walk(db, token, steps, first).Ok?
    ensures Completed(db, token, steps, first) == Walk(db, token, steps, first).value
    decreases steps
  {
    if token != "" {
      CompletedOnSuccess(db, db.samples[token].next, steps - 1, false);
    }
  }

  /** The completed iterations are those of a prefix of the chain, each reading its own sample's
      camera records; a successful walk completes the whole chain, and a failed walk that stops
      inside the chain stops at a sample whose records are missing or, first of all, whose
      intrinsic matrix is unusable. */
  lemma {:induction false} CompletedFollowsChain(db: Database, token: string, steps: nat, first: bool)
    requires EndsWithin(db, token, steps)
    ensures var done := Completed(db, token, steps, first);
      var chain := Chain(db, token, steps);
      && |done| <= |chain|
      && (forall i :: 0 <= i < |done| ==> FrontCameraOf(db, db.samples[chain[i]]) == Ok(done[i]))
      && (Walk(db, token, steps, first).Ok? ==> |done| == |chain|)
      && (Walk(db, token, steps, first).Err? && |done| < |chain| ==>
            var e := Walk(db, token, steps, first).error;
            || FrontCameraOf(db, db.samples[chain[|done|]]) == Err(e)
            || (first && |done| == 0 && FrontCameraOf(db, db.samples[chain[0]]).Ok?
                && !IsIntrinsic(FrontCameraOf(db, db.samples[chain[0]]).value.calib.cameraIntrinsic)
                && e == IntrinsicIndexError))
    decreases steps
  {
    if token != "" && token in db.samples {
      var next := db.samples[token].next;
      CompletedFollowsChain(db, next, steps - 1, false);
      var chain := Chain(db, token, steps);
      assert chain == [token] + Chain(db, next, steps - 1);
      var done := Completed(db, token, steps, first);
      if |done| > 0 {
        assert done == [done[0]] + Completed(db, next, steps - 1, false);
      }
    }
  }

  /** What the loop variables hold when the loop stops: the frames, copies and intrinsics of
      the iterations that completed. */
  function Gathered(db: Database, token: string, steps: nat, withMasks: bool): Collected
    requires EndsWithin(db, token, steps)
  {
    CompletedFirstIntrinsic(db, token, steps);
    CollectedOf(Completed(db, token, steps, true), withMasks)
  }

  /** The error a walk stops with, if any. */
  function StopOf(w: Result<seq<CameraFrame>, Error>): Option<Error> {
    if w.Ok? then None else Some(w.error)
  }

  /** Walk results of a prefix already processed, followed by the rest of the walk. */
  function Prepend(done: seq<CameraFrame>, rest: Result<seq<CameraFrame>, Error>): Result<seq<CameraFrame>, Error> {
    match rest
    case Err(e) => Err(e)
    case Ok(cams) => Ok(done + cams)
  }

  /** The `while sample_token:` loop shared by the three exporters. Each iteration looks up the
      sample and its front-camera records, reads the intrinsics on the first iteration only,
      computes the frame's camera-to-world matrix, copies the image to `images/NNNN.jpg` and
      appends the frame; then it moves to `next`. When an iteration raises, `c` holds what the
      iterations before it gathered and copied, and `stop` the error. */
  method CollectFrames(db: Database, firstToken: string, withMasks: bool, ghost steps: nat)
    returns (c: Collected, stop: Option<Error>)
    requires EndsWithin(db, firstToken, steps)
    ensures stop == StopOf(Walk(db, firstToken, steps, true))
    ensures c == Gathered(db, firstToken, steps, withMasks)
  {
    var token := firstToken;
    var frames: seq<Frame> := [];
    var copies: seq<Copy> := [];
    var intrinsic: Option<Intrinsics> := None;
    var idx: nat := 0;
    ghost var done: seq<CameraFrame> := [];
    PrependNothing(Walk(db, firstToken, steps, true));
    assert [] + Completed(db, firstToken, steps, true) == Completed(db, firstToken, steps, true);
    while token != ""
      invariant idx == |done|
      invariant Progress(db, firstToken, steps, withMasks, token, done, Collected(frames, copies, intrinsic))
      decreases steps - idx
    {
      ghost var before := Collected(frames, copies, intrinsic);
      if token !in db.samples {
        CollectFails(db, firstToken, steps, withMasks, token, done, before, KeyError("sample", token));
        return Collected(frames, copies, intrinsic), Some(KeyError("sample", token));
      }
      var sample := db.samples[token];
      var found := FrontCameraOf(db, sample);
      if found.Err? {
        CollectFails(db, firstToken, steps, withMasks, token, done, before, found.error);
        return Collected(frames, copies, intrinsic), Some(found.error);
      }
      var cam := found.value;
      if intrinsic.None? {
        if !IsIntrinsic(cam.calib.cameraIntrinsic) {
          CollectFails(db, firstToken, steps, withMasks, token, done, before, IntrinsicIndexError);
          return Collected(frames, copies, intrinsic), Some(IntrinsicIndexError);
        }
        intrinsic := Some(IntrinsicsOf(cam));
      }
      copies := copies + [CopyOf(idx, cam)];
      frames := frames + [FrameOf(idx, cam, withMasks)];
      Advance(db, firstToken, steps, withMasks, token, done, before, cam);
      done := done + [cam];
      idx := idx + 1;
      token := sample.next;
    }
    CollectSucceeds(db, firstToken, steps, withMasks, done, Collected(frames, copies, intrinsic));
    c, stop := Collected(frames, copies, intrinsic), None;
  }

  /** The loop's invariant after the camera frames `done` were gathered into `c`: the walk from
      the first sample, and the iterations it completes, are `done` followed by those from
      `token`. */
  ghost predicate Progress(db: Database, firstToken: string, steps: nat, withMasks: bool,
                           token: string, done: seq<CameraFrame>, c: Collected)
  {
    && |done| <= steps
    && EndsWithin(db, firstToken, steps)
    && EndsWithin(db, token, steps - |done|)
    && Walk(db, firstToken, steps, true) == Prepend(done, Walk(db, token, steps - |done|, |done| == 0))
    && Completed(db, firstToken, steps, true) == done + Completed(db, token, steps - |done|, |done| == 0)
    && (|done| > 0 ==> IsIntrinsic(done[0].calib.cameraIntrinsic))
    && c == CollectedOf(done, withMasks)
  }

  /** A missing sample, a missing camera record, or an unusable first intrinsic ends the whole
      walk with that error, keeping what was gathered so far. */
  lemma {:induction false} CollectFails(db: Database, firstToken: string, steps: nat, withMasks: bool,
                                        token: string, done: seq<CameraFrame>, c: Collected, e: Error)
    requires Progress(db, firstToken, steps, withMasks, token, done, c) && token != ""
    requires || (token !in db.samples && e == KeyError("sample", token))
             || (token in db.samples && FrontCameraOf(db, db.samples[token]) == Err(e))
             || (token in db.samples && FrontCameraOf(db, db.samples[token]).Ok? && c.intrinsic.None?
                 && !IsIntrinsic(FrontCameraOf(db, db.samples[token]).value.calib.cameraIntrinsic)
                 && e == IntrinsicIndexError)
    ensures StopOf(Walk(db, firstToken, steps, true)) == Some(e)
    ensures Gathered(db, firstToken, steps, withMasks) == c
  {
    assert c.intrinsic.None? ==> |done| == 0;
    assert done + [] == done;
  }

  /** One more sample whose records are present moves from the rest of the walk to the part
      already gathered, appending its frame and copy and, for the first one, its intrinsics. */
  lemma {:induction false} Advance(db: Database, firstToken: string, steps: nat, withMasks: bool,
                                   token: string, done: seq<CameraFrame>, c: Collected, cam: CameraFrame)
    requires Progress(db, firstToken, steps, withMasks, token, done, c) && token != ""
    requires token in db.samples && FrontCameraOf(db, db.samples[token]) == Ok(cam)
    requires c.intrinsic.None? ==> IsIntrinsic(cam.calib.cameraIntrinsic)
    ensures |done| < steps
    ensures Progress(db, firstToken, steps, withMasks, db.samples[token].next, done + [cam],
                     Collected(c.frames + [FrameOf(|done|, cam, withMasks)], c.copies + [CopyOf(|done|, cam)],
                               if c.intrinsic.None? then Some(IntrinsicsOf(cam)) else c.intrinsic))
  {
    assert c.intrinsic.None? <==> |done| == 0;
    var next := db.samples[token].next;
    WalkStep(db, token, steps - |done|, |done| == 0, done);
    assert Completed(db, firstToken, steps, true)
        == (done + [cam]) + Completed(db, next, steps - |done + [cam]|, false);
    assert (done + [cam])[0] == if |done| == 0 then cam else done[0];
    AppendFrame(done, cam, withMasks);
  }

  /** A walk whose rest is empty succeeds, having gathered exactly the prefix. */
  lemma {:induction false} CollectSucceeds(db: Database, firstToken: string, steps: nat, withMasks: bool,
                                           done: seq<CameraFrame>, c: Collected)
    requires Progress(db, firstToken, steps, withMasks, "", done, c)
    ensures StopOf(Walk(db, firstToken, steps, true)) == None
    ensures Gathered(db, firstToken, steps, withMasks) == c
  {
    assert done + [] == done;
  }

  lemma {:induction false} PrependNothing(rest: Result<seq<CameraFrame>, Error>)
    ensures Prepend([], rest) == rest
  {
    if rest.Ok? {
      assert [] + rest.value == rest.value;
    }
  }

  /** One iteration of the walk: a sample whose records are all present (and, on the first
      iteration, whose intrinsic matrix is usable) moves from the rest of the walk to the part
      already done. */
  lemma {:induction false} WalkStep(db: Database, token: string, steps: nat, first: bool, done: seq<CameraFrame>)
    requires EndsWithin(db, token, steps) && token != "" && token in db.samples
    requires FrontCameraOf(db, db.samples[token]).Ok?
    requires first ==> IsIntrinsic(FrontCameraOf(db, db.samples[token]).value.calib.cameraIntrinsic)
    ensures steps > 0 && EndsWithin(db, db.samples[token].next, steps - 1)
    ensures Prepend(done, Walk(db, token, steps, first))
         == Prepend(done + [FrontCameraOf(db, db.samples[token]).value],
                    Walk(db, db.samples[token].next, steps - 1, false))
    ensures done + Completed(db, token, steps, first)
         == (done + [FrontCameraOf(db, db.samples[token]).value]) + Completed(db, db.samples[token].next, steps - 1, false)
  {
    var cam := FrontCameraOf(db, db.samples[token]).value;
    var rest := Walk(db, db.samples[token].next, steps - 1, false);
    if rest.Ok? {
      assert done + ([cam] + rest.value) == (done + [cam]) + rest.value;
    }
    var more := Completed(db, db.samples[token].next, steps - 1, false);
    assert done + ([cam] + more) == (done + [cam]) + more;
  }

  /** Gathering one more frame appends that frame's entry and its copy, and reads the
      intrinsics only when it is the first frame. */
  lemma {:induction false} AppendFrame(done: seq<CameraFrame>, cam: CameraFrame, withMasks: bool)
    requires IsIntrinsic((done + [cam])[0].calib.cameraIntrinsic)
    ensures var c := CollectedOf(done, withMasks);
      CollectedOf(done + [cam], withMasks)
        == Collected(c.frames + [FrameOf(|done|, cam, withMasks)], c.copies + [CopyOf(|done|, cam)],
                     if c.intrinsic.None? then Some(IntrinsicsOf(cam)) else c.intrinsic)
  {
    FramesAppend(done, cam, withMasks);
    CopiesAppend(done, cam);
    if |done| == 0 {
      assert (done + [cam])[0] == cam;
    } else {
      assert (done + [cam])[0] == done[0];
    }
  }

  lemma {:induction false} FramesAppend(done: seq<CameraFrame>, cam: CameraFrame, withMasks: bool)
    ensures FramesOf(done + [cam], withMasks) == FramesOf(done, withMasks) + [FrameOf(|done|, cam, withMasks)]
  {
    assert (done + [cam])[..|done|] == done;
  }

  lemma {:induction false} CopiesAppend(done: seq<CameraFrame>, cam: CameraFrame)
    ensures CopiesOf(done + [cam]) == CopiesOf(done) + [CopyOf(|done|, cam)]
  {
    assert (done + [cam])[..|done|] == done;
  }

  /** The manifest assembled after the loop: "OPENCV", the first frame's size and intrinsics,
      and the frames in walk order. */
  function ManifestOf(intrinsic: Intrinsics, frames: seq<Frame>): Manifest {
    Manifest("OPENCV", intrinsic.w, intrinsic.h, intrinsic.flX, intrinsic.flY,
             intrinsic.cx, intrinsic.cy, frames)
  }

  /** What an exporter leaves behind: `masks` is None for `export_scene_front` and the
      generator's outcome for the masked variants. Errors raised before the loop copy nothing;
      an error inside the loop, from the generator or from an empty scene keeps the copies the
      loop made. */
  function ExpectedExport(db: Database, sceneToken: string, masks: Option<MaskGenerator>, steps: nat): Exported
    requires SceneEnds(db, sceneToken, steps)
  {
    if masks == Some(ImportFails) then Exported([], Err(MaskGeneratorMissing))
    else if sceneToken !in db.scenes then Exported([], Err(KeyError("scene", sceneToken)))
    else
      var first := db.scenes[sceneToken].firstSampleToken;
      var c := Gathered(db, first, steps, masks.Some?);
      match StopOf(Walk(db, first, steps, true))
      case Some(e) => Exported(c.copies, Err(e))
      case None =>
        if masks == Some(Raises) then Exported(c.copies, Err(MaskGeneratorFailed))
        else if c.intrinsic.None? then Exported(c.copies, Err(EmptyScene))
        else Exported(c.copies, Ok(ManifestOf(c.intrinsic.value, c.frames)))
  }

  /** Scene lookup, the loop, the mask generator and the manifest; a scene without samples
      leaves `intrinsic` None and `**intrinsic` raises. */
  method ExportScene(db: Database, sceneToken: string, masks: Option<MaskGenerator>, ghost steps: nat)
    returns (r: Exported)
    requires SceneEnds(db, sceneToken, steps)
    ensures r == ExpectedExport(db, sceneToken, masks, steps)
  {
    if masks == Some(ImportFails) {
      return Exported([], Err(MaskGeneratorMissing));
    }
    if sceneToken !in db.scenes {
      return Exported([], Err(KeyError("scene", sceneToken)));
    }
    var c, stop := CollectFrames(db, db.scenes[sceneToken].firstSampleToken, masks.Some?, steps);
    if stop.Some? {
      return Exported(c.copies, Err(stop.value));
    }
    if masks == Some(Raises) {
      return Exported(c.copies, Err(MaskGeneratorFailed));
    }
    if c.intrinsic.None? {
      return Exported(c.copies, Err(EmptyScene));
    }
    r := Exported(c.copies, Ok(ManifestOf(c.intrinsic.value, c.frames)));
  }

  /** `export_scene_front` */
  method ExportSceneFront(db: Database, sceneToken: string, ghost steps: nat)
    returns (r: Exported)
    requires SceneEnds(db, sceneToken, steps)
    ensures r == ExpectedExport(db, sceneToken, None, steps)
  {
    r := ExportScene(db, sceneToken, None, steps);
  }

  /** `export_scene_front_with_lidar_masks`; `dynamic_classes` and `dilation_size` only reach
      the generator, whose outcome is `generator`. */
  method ExportSceneFrontWithLidarMasks(db: Database, sceneToken: string, generator: MaskGenerator,
                                        ghost steps: nat)
    returns (r: Exported)
    requires SceneEnds(db, sceneToken, steps)
    ensures r == ExpectedExport(db, sceneToken, Some(generator), steps)
  {
    r := ExportScene(db, sceneToken, Some(generator), steps);
  }

  /** `export_scene_front_with_bbox_masks`; the box-mask generator's outcome is `generator`. */
  method ExportSceneFrontWithBBoxMasks(db: Database, sceneToken: string, generator: MaskGenerator,
                                       ghost steps: nat)
    returns (r: Exported)
    requires SceneEnds(db, sceneToken, steps)
    ensures r == ExpectedExport(db, sceneToken, Some(generator), steps)
  {
    r := ExportScene(db, sceneToken, Some(generator), steps);
  }

  // ---------------------------------------------------------------------------------------
  // What an export contains

  /** A successful export has one frame and one copy per sample of the chain, in chain order:
      frame i is `images/NNNN.jpg` with `compute_c2w` of sample i's own camera records, masked
      exports add `masks/NNNN.png`, and copy i puts sample i's image at the frame's path. */
  lemma {:induction false} ExportFrames(db: Database, sceneToken: string, masks: Option<MaskGenerator>,
                                        steps: nat)
    requires SceneEnds(db, sceneToken, steps)
    requires ExpectedExport(db, sceneToken, masks, steps).result.Ok?
    ensures sceneToken in db.scenes
    ensures var chain := Chain(db, db.scenes[sceneToken].firstSampleToken, steps);
      var e := ExpectedExport(db, sceneToken, masks, steps);
      var fs := e.result.value.frames;
      && |fs| == |chain| == |e.copies|
      && forall i :: 0 <= i < |chain| ==>
           && FrontCameraOf(db, db.samples[chain[i]]).Ok?
           && var cam := FrontCameraOf(db, db.samples[chain[i]]).value;
           && fs[i].filePath == ImagePath(i)
           && fs[i].transformMatrix == ComputeC2W(cam.egoPose, cam.calib.pose)
           && fs[i].maskPath == (if masks.Some? then Some(MaskPath(i)) else None)
           && e.copies[i] == Copy(cam.data.filename, ImagePath(i))
  {
    var first := db.scenes[sceneToken].firstSampleToken;
    var chain := Chain(db, first, steps);
    ExportIsWalk(db, sceneToken, masks, steps);
    WalkFollowsChain(db, first, steps, true);
    forall i | 0 <= i < |chain|
      ensures FrontCameraOf(db, db.samples[chain[i]]).Ok?
      ensures var cam := FrontCameraOf(db, db.samples[chain[i]]).value;
        var e := ExpectedExport(db, sceneToken, masks, steps);
        var fs := e.result.value.frames;
        && fs[i].filePath == ImagePath(i)
        && fs[i].transformMatrix == ComputeC2W(cam.egoPose, cam.calib.pose)
        && fs[i].maskPath == (if masks.Some? then Some(MaskPath(i)) else None)
        && e.copies[i] == Copy(cam.data.filename, ImagePath(i))
    {
      ExportFrameAt(db, sceneToken, masks, steps, i);
    }
  }

  /** Frame i and copy i of a successful export come from sample i of the chain. */
  lemma {:induction false} ExportFrameAt(db: Database, sceneToken: string, masks: Option<MaskGenerator>,
                                         steps: nat, i: nat)
    requires SceneEnds(db, sceneToken, steps)
    requires ExpectedExport(db, sceneToken, masks, steps).result.Ok?
    requires sceneToken in db.scenes && i < |Chain(db, db.scenes[sceneToken].firstSampleToken, steps)|
    ensures var chain := Chain(db, db.scenes[sceneToken].firstSampleToken, steps);
      var e := ExpectedExport(db, sceneToken, masks, steps);
      var fs := e.result.value.frames;
      && FrontCameraOf(db, db.samples[chain[i]]).Ok?
      && i < |fs| && i < |e.copies|
      && fs[i] == FrameOf(i, FrontCameraOf(db, db.samples[chain[i]]).value, masks.Some?)
      && e.copies[i] == CopyOf(i, FrontCameraOf(db, db.samples[chain[i]]).value)
  {
    var first := db.scenes[sceneToken].firstSampleToken;
    ExportIsWalk(db, sceneToken, masks, steps);
    var cams := Walk(db, first, steps, true).value;
    WalkFollowsChain(db, first, steps, true);
    FramesOfAt(cams, masks.Some?, i);
    CopiesOfAt(cams, i);
  }

  /** A successful export's manifest and copies are those gathered from the whole walk of its
      scene, which is not empty. */
  lemma {:induction false} ExportIsWalk(db: Database, sceneToken: string, masks: Option<MaskGenerator>,
                                        steps: nat)
    requires SceneEnds(db, sceneToken, steps)
    requires ExpectedExport(db, sceneToken, masks, steps).result.Ok?
    ensures sceneToken in db.scenes
    ensures var first := db.scenes[sceneToken].firstSampleToken;
      var e := ExpectedExport(db, sceneToken, masks, steps);
      && Walk(db, first, steps, true).Ok?
      && var cams := Walk(db, first, steps, true).value;
      && |cams| > 0
      && IsIntrinsic(cams[0].calib.cameraIntrinsic)
      && e.result.value == ManifestOf(IntrinsicsOf(cams[0]), FramesOf(cams, masks.Some?))
      && e.copies == CopiesOf(cams)
  {
    var first := db.scenes[sceneToken].firstSampleToken;
    var e := ExpectedExport(db, sceneToken, masks, steps);
    var c := Gathered(db, first, steps, masks.Some?);
    assert StopOf(Walk(db, first, steps, true)) == None;
    CompletedOnSuccess(db, first, steps, true);
    assert e.result == Ok(ManifestOf(c.intrinsic.value, c.frames)) && e.copies == c.copies;
  }

  /** The copies of the completed iterations put the images of a prefix of the chain, in
      chain order, at `images/NNNN.jpg`; all of the chain when the walk succeeds, otherwise up
      to the sample whose error the walk raises. */
  lemma {:induction false} CompletedCopies(db: Database, token: string, steps: nat)
    requires EndsWithin(db, token, steps)
    ensures var copies := CopiesOf(Completed(db, token, steps, true));
      var chain := Chain(db, token, steps);
      var walk := Walk(db, token, steps, true);
      && |copies| <= |chain|
      && (forall i :: 0 <= i < |copies| ==>
            && FrontCameraOf(db, db.samples[chain[i]]).Ok?
            && copies[i] == Copy(FrontCameraOf(db, db.samples[chain[i]]).value.data.filename, ImagePath(i)))
      && (walk.Ok? ==> |copies| == |chain|)
      && (walk.Err? && |copies| < |chain| ==>
            || FrontCameraOf(db, db.samples[chain[|copies|]]) == Err(walk.error)
            || (|copies| == 0 && FrontCameraOf(db, db.samples[chain[0]]).Ok?
                && !IsIntrinsic(FrontCameraOf(db, db.samples[chain[0]]).value.calib.cameraIntrinsic)
                && walk.error == IntrinsicIndexError))
  {
    var done := Completed(db, token, steps, true);
    var chain := Chain(db, token, steps);
    CompletedFollowsChain(db, token, steps, true);
    forall i | 0 <= i < |done|
      ensures CopiesOf(done)[i] == Copy(FrontCameraOf(db, db.samples[chain[i]]).value.data.filename, ImagePath(i))
    {
      CopiesOfAt(done, i);
    }
  }

  /** Whatever the outcome, the images already copied stay copied: they are those of a prefix
      of the chain, in chain order, copy i putting sample i's image at `images/NNNN.jpg`. A
      walk that succeeds copies every sample, even when the mask generator or the manifest
      then raises; a walk that raises stops at the first sample it cannot read, after copying
      the samples before it; an error before the loop copies nothing. */
  lemma {:induction false} ExportCopies(db: Database, sceneToken: string, masks: Option<MaskGenerator>,
                                        steps: nat)
    requires SceneEnds(db, sceneToken, steps)
    ensures var e := ExpectedExport(db, sceneToken, masks, steps);
      && (masks == Some(ImportFails) || sceneToken !in db.scenes ==> e.copies == [])
      && (masks != Some(ImportFails) && sceneToken in db.scenes ==>
            var first := db.scenes[sceneToken].firstSampleToken;
            var chain := Chain(db, first, steps);
            var walk := Walk(db, first, steps, true);
            && |e.copies| <= |chain|
            && (forall i :: 0 <= i < |e.copies| ==>
                  && FrontCameraOf(db, db.samples[chain[i]]).Ok?
                  && e.copies[i] == Copy(FrontCameraOf(db, db.samples[chain[i]]).value.data.filename, ImagePath(i)))
            && (walk.Ok? ==> |e.copies| == |chain|)
            && (walk.Ok? && masks == Some(Raises) ==> e.result == Err(MaskGeneratorFailed))
            && (walk.Err? ==> e.result == Err(walk.error))
            && (walk.Err? && |e.copies| < |chain| ==>
                  || FrontCameraOf(db, db.samples[chain[|e.copies|]]) == Err(walk.error)
                  || (|e.copies| == 0 && FrontCameraOf(db, db.samples[chain[0]]).Ok?
                      && !IsIntrinsic(FrontCameraOf(db, db.samples[chain[0]]).value.calib.cameraIntrinsic)
                      && walk.error == IntrinsicIndexError)))
  {
    if masks != Some(ImportFails) && sceneToken in db.scenes {
      var first := db.scenes[sceneToken].firstSampleToken;
      CompletedCopies(db, first, steps);
      assert ExpectedExport(db, sceneToken, masks, steps).copies == CopiesOf(Completed(db, first, steps, true));
    }
  }

  /** The manifest's camera model is OPENCV, and its size and intrinsics are those of the first
      sample's camera; no later frame's values are read. */
  lemma {:induction false} ExportIntrinsics(db: Database, sceneToken: string, masks: Option<MaskGenerator>,
                                            steps: nat)
    requires SceneEnds(db, sceneToken, steps)
    requires ExpectedExport(db, sceneToken, masks, steps).result.Ok?
    ensures sceneToken in db.scenes
    ensures var chain := Chain(db, db.scenes[sceneToken].firstSampleToken, steps);
      var m := ExpectedExport(db, sceneToken, masks, steps).result.value;
      && |chain| > 0
      && FrontCameraOf(db, db.samples[chain[0]]).Ok?
      && var cam := FrontCameraOf(db, db.samples[chain[0]]).value;
      && IsIntrinsic(cam.calib.cameraIntrinsic)
      && m.cameraModel == "OPENCV"
      && m.w == cam.data.width && m.h == cam.data.height
      && m.flX == cam.calib.cameraIntrinsic[0][0] && m.flY == cam.calib.cameraIntrinsic[1][1]
      && m.cx == cam.calib.cameraIntrinsic[0][2] && m.cy == cam.calib.cameraIntrinsic[1][2]
  {
    var first := db.scenes[sceneToken].firstSampleToken;
    ExportIsWalk(db, sceneToken, masks, steps);
    WalkFollowsChain(db, first, steps, true);
  }

  /** Different frames name different images and different masks, and no image path is a mask
      path: no copy overwrites another. */
  lemma ExportPathsDistinct(db: Database, sceneToken: string, masks: Option<MaskGenerator>, steps: nat,
                            i: nat, j: nat)
    requires SceneEnds(db, sceneToken, steps)
    requires ExpectedExport(db, sceneToken, masks, steps).result.Ok?
    requires var fs := ExpectedExport(db, sceneToken, masks, steps).result.value.frames;
      i < |fs| && j < |fs|
    ensures var e := ExpectedExport(db, sceneToken, masks, steps);
      var fs := e.result.value.frames;
      && (fs[i].filePath == fs[j].filePath <==> i == j)
      && (e.copies[i].destination == e.copies[j].destination <==> i == j)
      && (fs[i].maskPath.Some? ==> fs[i].maskPath.value != fs[j].filePath)
      && (fs[i].maskPath.Some? && fs[j].maskPath.Some? ==>
            (fs[i].maskPath.value == fs[j].maskPath.value <==> i == j))
  {
    ExportFrames(db, sceneToken, masks, steps);
    PathsInjective(i, j);
    PathsInjective(j, i);
  }

  /** An empty scene (no first sample) copies nothing and writes no manifest. */
  lemma EmptySceneFails(db: Database, sceneToken: string, masks: Option<MaskGenerator>, steps: nat)
    requires sceneToken in db.scenes && db.scenes[sceneToken].firstSampleToken == ""
    ensures SceneEnds(db, sceneToken, steps)
    ensures ExpectedExport(db, sceneToken, masks, steps).result.Err?
    ensures ExpectedExport(db, sceneToken, masks, steps).copies == []
  {
  }

  /** The mask generator's count does not matter: every outcome that returns gives the same
      export, with a mask path on every frame. */
  lemma MaskCountIgnored(db: Database, sceneToken: string, steps: nat, n1: nat, n2: nat)
    requires SceneEnds(db, sceneToken, steps)
    ensures ExpectedExport(db, sceneToken, Some(Returns(n1)), steps)
         == ExpectedExport(db, sceneToken, Some(Returns(n2)), steps)
  {
  }

  /** Apart from the mask paths, a masked export is the plain export: the same copies, the same
      error, or the same frames each pointing at its mask. */
  lemma MaskedIsPlainPlusMasks(db: Database, sceneToken: string, steps: nat, n: nat)
    requires SceneEnds(db, sceneToken, steps)
    ensures var plain := ExpectedExport(db, sceneToken, None, steps);
      var masked := ExpectedExport(db, sceneToken, Some(Returns(n)), steps);
      && masked.copies == plain.copies
      && (plain.result.Ok? <==> masked.result.Ok?)
      && (plain.result.Err? ==> masked.result == plain.result)
      && (plain.result.Ok? ==>
            var pf := plain.result.value.frames;
            var mf := masked.result.value.frames;
            && |mf| == |pf|
            && forall i :: 0 <= i < |pf| ==> mf[i] == Frame(pf[i].filePath, pf[i].transformMatrix, Some(MaskPath(i))))
  {
    if sceneToken in db.scenes {
      var first := db.scenes[sceneToken].firstSampleToken;
      var cams := Completed(db, first, steps, true);
      var plain := Gathered(db, first, steps, false);
      var masked := Gathered(db, first, steps, true);
      assert masked.copies == plain.copies && masked.intrinsic == plain.intrinsic;
      forall i | 0 <= i < |cams|
        ensures FramesOf(cams, true)[i]
             == Frame(FramesOf(cams, false)[i].filePath, FramesOf(cams, false)[i].transformMatrix, Some(MaskPath(i)))
      {
        FrameMasked(cams, i);
      }
    }
  }

  /** Frame i with masks is frame i without, plus `masks/NNNN.png`. */
  lemma {:induction false} FrameMasked(cams: seq<CameraFrame>, i: nat)
    requires i < |cams|
    ensures FramesOf(cams, true)[i]
         == Frame(FramesOf(cams, false)[i].filePath, FramesOf(cams, false)[i].transformMatrix, Some(MaskPath(i)))
  {
    FramesOfAt(cams, true, i);
    FramesOfAt(cams, false, i);
  }

  /** A scene whose chain has all its records, ends with an empty `next`, and whose first camera
      has a usable intrinsic matrix exports successfully (given a mask generator that returns). */
  lemma {:induction false} ExportSucceeds(db: Database, sceneToken: string, masks: Option<MaskGenerator>,
                                          steps: nat)
    requires SceneEnds(db, sceneToken, steps)
    requires masks.None? || masks.value.Returns?
    requires sceneToken in db.scenes
    requires var first := db.scenes[sceneToken].firstSampleToken;
      var chain := Chain(db, first, steps);
      && |chain| > 0
      && (forall i :: 0 <= i < |chain| ==> FrontCameraOf(db, db.samples[chain[i]]).Ok?)
      && db.samples[chain[|chain| - 1]].next == ""
      && IsIntrinsic(FrontCameraOf(db, db.samples[chain[0]]).value.calib.cameraIntrinsic)
    ensures ExpectedExport(db, sceneToken, masks, steps).result.Ok?
  {
    var first := db.scenes[sceneToken].firstSampleToken;
    WalkSucceeds(db, first, steps, true);
    WalkFollowsChain(db, first, steps, true);
    CompletedOnSuccess(db, first, steps, true);
  }
}
