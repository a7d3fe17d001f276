# nuScenes → Nerfstudio export, modelled in Dafny

This project models the part of `nuscenes_gs` that turns one nuScenes scene into training
data for Gaussian splatting. It covers four parts:

- **Poses** (`src/nuscenes_gs/poses.py`): a quaternion and a translation become a 4×4
  homogeneous transform. The camera-to-world chain `T_world_ego · T_ego_cam` is followed by
  the OpenCV→OpenGL axis flip `diag(1, -1, -1, 1)`.
- **Point transforms and projection** (`src/nuscenes_gs/masks.py`):
  - LiDAR points go from the lidar frame to the world frame;
  - the world-to-camera matrix is the inverse of the OpenCV camera-to-world chain;
  - `project_points_to_image` projects world points through `w2c` and `K`, keeps the points in
    front of the camera and inside the image, and clears the mask entries of the dropped points.
- **Sparse depth maps** (`src/nuscenes_gs/depth.py`):
  - `project_lidar_to_depth` drops points of dynamic classes, drops points behind the camera,
    outside the depth range or outside the image, and keeps the nearest point per pixel;
  - the result is a uint16 millimetre raster;
  - `generate_depth_maps_for_scene` walks a scene's keyframes, computes one raster per frame
    and records `depth/NNNN.png` under the frame index.
- **The Nerfstudio exporters** (`src/nuscenes_gs/nerfstudio_export.py`):
  - they walk the keyframe chain of a scene and read the front camera's records per keyframe;
  - they take the intrinsics and image size from the first frame;
  - per frame they compute the OpenGL camera-to-world matrix, copy the image to
    `images/NNNN.jpg` and list the frame in `transforms.json`;
  - the two masked variants add `masks/NNNN.png` to every frame and call an external mask
    generator.

## How it is modelled

- **Database.** The nuScenes database is a record of maps keyed by token (`Scenes.Database`).
  `nusc.get` is a map lookup, and a missing token is an `Err(KeyError(table, token))`.
- **Errors.** Every exception the modelled code raises is a constructor of `Scenes.Error` (or
  of `Depth.DepthError` and `Masks.LinAlgError`), returned through `Result`. The exceptions
  of `shutil.copy2`, `cv2.imwrite`, `mkdir` and `json.dump` are the exception: the model
  assumes that writing succeeds (see "Left out").
- **Termination.** A scene's `while sample_token:` loop ends only if the chain of `next`
  tokens ends. Each walk takes a ghost step bound `steps` and requires that the chain ends
  within that many keyframes (`Scenes.EndsWithin`). A cyclic chain, on which Python loops
  forever, is outside the model.
- **Pure numpy code becomes functions.** Examples:
  - `Filters.Select` is boolean indexing and `Filters.Where` is `np.where`;
  - `Masks.TransformLidarToWorld` applies the transform to every point;
  - `Depth.ExpectedDepth` is the whole depth map.
- **Loops become methods with loop invariants.** Each is proved equal to a specification
  function:
  - the exporters' loop (`Export.CollectFrames`, specified by `Export.Walk` for the outcome
    and by `Export.Gathered` for what the loop holds when it stops);
  - the depth-map scene loop (`DepthScene.GenerateDepthMapsForScene`, specified by
    `DepthScene.ExpectedDepthMaps`);
  - the nearest-point rasterising loop (`Depth.FillDepthMap`);
  - the in-place mask update of `project_points_to_image` (`Masks.ClearPositions`), on an
    `array<bool>`.
- **Real arithmetic.** Matrices are `seq<seq<real>>` of fixed size (`LinAlg.Mat3`,
  `LinAlg.Mat4`). Arithmetic is exact real arithmetic.
- **Rotations without square roots.** A quaternion's rotation matrix is computed as pyquaternion
  does after normalising: each quadratic entry is divided by the squared norm. The zero
  quaternion cannot be normalised, so it yields the zero matrix. With that,
  `np.linalg.inv(c2w)` is the rigid inverse `[Rᵀ | -Rᵀt]` when both quaternions are nonzero.
  It is `SingularMatrix` otherwise, because the camera-to-world matrix then has a zero column.
- **Inputs instead of I/O.** What the code reads from disk is an input of the model:
  - point clouds and labels, as `DepthScene.Readings.scans`;
  - image sizes, as `DepthScene.Readings.imageSizes`;
  - the outcome of the mask generator, as `Export.MaskGenerator`.
- **Outputs instead of I/O.** What the code writes is part of the result:
  - `Export.Copy` for each `shutil.copy2`;
  - `Export.Manifest` for `transforms.json`;
  - `DepthScene.Written` for each `cv2.imwrite`.
- **Partial output on errors.** Files written before an exception stay on disk, so an error
  does not erase them from the model:
  - `Export.Exported` pairs the images already copied with either the manifest or the error;
  - `DepthScene.DepthOutput` pairs the depth maps already written with either `depth_paths`
    or the error;
  - `Export.Completed` and `DepthScene.DepthDone` are the iterations that finished before the
    walk stopped.
- **Depth encoding.** The raster stores each depth with the saturating encoding
  `Depth.Millimetres`: min(trunc(1000·d), 65535). The code as written casts without a bound;
  see "Findings".

## Model

| member | source | states |
|---|---|---|
| Poses.RotationOrthonormal | src/nuscenes_gs/poses.py:20 | for every nonzero quaternion, the rotation block is orthonormal: RᵀR = RRᵀ = I |
| Poses.RotationColumnDot | src/nuscenes_gs/poses.py:20 | columns i and j of a nonzero quaternion's rotation matrix have dot product 1 if i = j, else 0 |
| Poses.RotationRowDot | src/nuscenes_gs/poses.py:20 | rows i and j of a nonzero quaternion's rotation matrix have dot product 1 if i = j, else 0 |
| Poses.NumeratorGram | src/nuscenes_gs/poses.py:20 | the columns of the unnormalised rotation matrix are orthogonal, and each has squared length ‖q‖⁴ |
| Poses.NumeratorCoGram | src/nuscenes_gs/poses.py:20 | the rows of the unnormalised rotation matrix are orthogonal, and each has squared length ‖q‖⁴ |
| Poses.RotationIsConjugation | src/nuscenes_gs/poses.py:20 | the matrix rotates by q and not by its conjugate: for nonzero q, R·v is the vector part of the Hamilton product q ⊗ (0, v) ⊗ q̄ over ‖q‖², and that product has zero scalar part; the zero quaternion sends every vector to 0 |
| Poses.ConjugationParts | src/nuscenes_gs/poses.py:20 | expanded, q ⊗ (0, v) ⊗ q̄ has zero scalar part and the unnormalised rotation matrix applied to v as its vector part |
| Poses.MakeTransformLayout | src/nuscenes_gs/poses.py:19-21 | `make_transform` puts the rotation in the 3×3 block and the translation in the last column, over a bottom row [0, 0, 0, 1] |
| Poses.MakeTransformApply | src/nuscenes_gs/poses.py:9-22 | applying the transform to a point rotates the point, then adds the translation |
| Poses.CvToGlInvolution | src/nuscenes_gs/poses.py:26 | the OpenCV→OpenGL flip is its own inverse |
| Poses.FlipNegatesColumns | src/nuscenes_gs/poses.py:49 | right-multiplying by the flip negates columns 1 and 2 of every row and keeps columns 0 and 3 |
| Poses.CameraToWorldAffine | src/nuscenes_gs/poses.py:48 | the OpenCV camera-to-world chain keeps the bottom row [0, 0, 0, 1] |
| Poses.CameraToWorldApply | src/nuscenes_gs/poses.py:41-48 | the chain maps a camera point into the ego frame, then into the world frame |
| Poses.ComputeC2WLayout | src/nuscenes_gs/poses.py:29-50 | `compute_c2w` is the OpenCV chain with its y and z columns negated; its bottom row is affine; its translation is the camera's position in the world |
| Poses.CameraPosition | src/nuscenes_gs/poses.py:41-48 | the camera centre is the sensor's mounting translation mapped through the ego pose |
| Poses.ForwardAxis | src/nuscenes_gs/poses.py:49 | the OpenGL camera looks along −z: minus its z column is the OpenCV camera's viewing direction |
| Poses.CameraBlock | src/nuscenes_gs/poses.py:48 | the rotation of the chain is the ego rotation times the sensor rotation |
| Poses.CameraBlockOrthonormal | src/nuscenes_gs/poses.py:48 | the chain's rotation is orthonormal when both quaternions are nonzero |
| Poses.CameraBlockDegenerate | src/nuscenes_gs/poses.py:48 | when either quaternion is zero, the chain's first column is zero |
| LinAlg.OrthonormalMul | src/nuscenes_gs/poses.py:48 | the product of two orthonormal matrices is orthonormal |
| LinAlg.MulRigid | src/nuscenes_gs/poses.py:48 | the product of two rigid transforms is the rigid transform with the composed rotation and translation |
| LinAlg.ApplyMul | src/nuscenes_gs/masks.py:87-95 | applying a product of transforms to a point equals applying them one after the other |
| LinAlg.ApplyRigid | src/nuscenes_gs/masks.py:90-95 | a rigid transform applied in homogeneous coordinates is R·p + t |
| LinAlg.RigidInverseIsInverse | src/nuscenes_gs/masks.py:258 | for an orthonormal block over an affine row, [Rᵀ, −Rᵀt] is a two-sided inverse |
| LinAlg.RigidInverseInvolutive | src/nuscenes_gs/masks.py:258 | inverting a rigid transform twice gives it back |
| LinAlg.MulVecAssoc | src/nuscenes_gs/masks.py:93 | applying a product of 4×4 matrices to a vector equals applying them in turn |
| Masks.TransformLidarToWorld | src/nuscenes_gs/masks.py:57-95 | one output point per input point; each is the lidar→ego transform followed by ego→world |
| Masks.ComputeW2C | src/nuscenes_gs/masks.py:235-260 | fails exactly when a quaternion is zero, and then no left inverse exists; otherwise the result is a two-sided inverse of the OpenCV camera-to-world chain, with an affine bottom row |
| Masks.W2CRoundTrip | src/nuscenes_gs/masks.py:255-258 | mapping a world point into the camera and back returns the point |
| Masks.ZeroColumnNoLeftInverse | src/nuscenes_gs/masks.py:258 | a matrix with a zero first column has no left inverse |
| Masks.ProjectFinite | src/nuscenes_gs/masks.py:128-129 | with K's last row [0, 0, 1], a point in front of the camera projects to ((K·p)₀/z, (K·p)₁/z) |
| Masks.ProjectPointsToImage | src/nuscenes_gs/masks.py:98-144 | the mask has one entry per input point and is true exactly for points in front of the camera that project inside the image; `uv` and `distances` are the projections and positive depths of exactly those points, in input order |
| Masks.Survivors | src/nuscenes_gs/masks.py:125-144 | re-indexing the in-bounds test of the front points back onto all points marks exactly the visible points, and selects their pixels and depths |
| Masks.ClearPositions | src/nuscenes_gs/masks.py:141-142 | `mask[idx] = False` clears exactly the listed positions and keeps every other entry |
| Masks.MaskAfterClearing | src/nuscenes_gs/masks.py:140-142 | clearing the out-of-bounds front points gives the front mask refined by the in-bounds test |
| Masks.InSelectedRangeAt | src/nuscenes_gs/masks.py:141-142 | an index is cleared exactly when it is a front point that failed the bounds test |
| Filters.Select | src/nuscenes_gs/masks.py:128 | boolean indexing keeps as many elements as the mask has true entries |
| Filters.SelectAt | src/nuscenes_gs/masks.py:128 | a kept element sits at the position given by the number of true entries before it |
| Filters.SelectFrom | src/nuscenes_gs/masks.py:132 | every selected element is an input element whose mask entry is true |
| Filters.SelectSelect | src/nuscenes_gs/depth.py:73-100 | selecting twice equals selecting once with the refined mask |
| Filters.SelectMap | src/nuscenes_gs/masks.py:128 | selecting after an element-wise map equals mapping after selecting |
| Filters.SelectAnd | src/nuscenes_gs/depth.py:82-84 | filtering by `a`, then by `c` on the survivors, equals filtering by `a and c` |
| Filters.RefineSelected | src/nuscenes_gs/depth.py:82-84 | refining a mask by a test on its survivors equals the element-wise `and` |
| Filters.RefineComplement | src/nuscenes_gs/masks.py:142 | `~in_bounds` clears exactly the front entries the refined mask keeps false |
| Filters.Where | src/nuscenes_gs/masks.py:141 | `np.where` lists one in-range index per true entry |
| Filters.InSelectedRange | src/nuscenes_gs/masks.py:141 | an index is listed by `np.where` exactly when it is in range and its entry is true |
| Filters.CountAnd | src/nuscenes_gs/depth.py:82 | each further filter keeps at most as many points as before |
| Names.Pad4 | src/nuscenes_gs/nerfstudio_export.py:69 | `{idx:04d}` is all digits: exactly four below 10000, and from 10000 on the plain decimal digits with no padding |
| Names.ParsePad4 | src/nuscenes_gs/nerfstudio_export.py:69 | reading the padded digits back gives the index |
| Names.Pad4Injective | src/nuscenes_gs/nerfstudio_export.py:69 | two indices share a padded name exactly when they are equal |
| Names.PathsInjective | src/nuscenes_gs/nerfstudio_export.py:158-165 | image paths, mask paths and depth paths are each equal exactly for equal indices, and no image path is a mask path |
| Scenes.Chain | src/nuscenes_gs/nerfstudio_export.py:42-43 | every token the loop visits is nonempty and names a sample record |
| Scenes.ChainLinks | src/nuscenes_gs/nerfstudio_export.py:80 | the visit starts at the first token, and each next token is the `next` of the previous sample |
| Scenes.FrontCameraOf | src/nuscenes_gs/nerfstudio_export.py:43-50 | succeeds exactly when the CAM_FRONT channel, its sample_data, ego_pose and calibrated_sensor all exist, and then returns those records |
| Depth.FilterOf | src/nuscenes_gs/depth.py:30-56 | no class list means the default vehicle, human and cycle classes; the depth range is taken as given |
| Depth.Round | src/nuscenes_gs/depth.py:107 | `round` is within 0.5 of its argument, and a tie goes to the even integer |
| Depth.RoundIsNearest | src/nuscenes_gs/depth.py:107 | no integer is closer to x than `round(x)` |
| Depth.RoundInImage | src/nuscenes_gs/depth.py:107-108 | a coordinate in [0, w) rounds into [0, w]; the second bounds check drops the value w |
| Depth.RoundReachesWidth | src/nuscenes_gs/depth.py:94-108 | u = 1599.5 passes the first bounds test for a 1600-wide image but rounds to 1600, which the second test drops |
| Depth.Trunc | src/nuscenes_gs/depth.py:115 | `astype` truncates toward zero |
| Depth.MillimetresAsWritten | src/nuscenes_gs/depth.py:115 | the value as written is the truncated millimetre count, with no bound |
| Depth.DefaultRangeOverflows | src/nuscenes_gs/depth.py:115 | a depth of 70 m lies in the default range but needs 70000 mm, more than uint16 holds |
| Depth.Millimetres | src/nuscenes_gs/depth.py:115 | the corrected encoding always fits in uint16 |
| Depth.MillimetresExact | src/nuscenes_gs/depth.py:115 | below 65.536 m, the corrected encoding equals the truncated millimetre count, within 1 mm below the depth |
| Depth.MillimetresSaturate | src/nuscenes_gs/depth.py:115 | from 65.536 m on, the corrected encoding saturates at 65535 |
| Depth.MillimetresMonotone | src/nuscenes_gs/depth.py:115 | a farther point never encodes smaller |
| Depth.MillimetresZeroMeansEmpty | src/nuscenes_gs/depth.py:113-115 | 0 stays "no depth", and any depth of at least 1 mm encodes as at least 1 |
| Depth.NearestAt | src/nuscenes_gs/depth.py:106-111 | a pixel ends at 0 or at the depth of a hit that lands on it |
| Depth.NearestIsMinimum | src/nuscenes_gs/depth.py:105-111 | with positive depths, each pixel holds the minimum depth of the hits landing on it, and 0 where none lands |
| Depth.NearestStep | src/nuscenes_gs/depth.py:110-111 | one iteration writes the hit's depth when the pixel is empty or the hit is nearer, and keeps the value otherwise |
| Depth.NearestOrderIndependent | src/nuscenes_gs/depth.py:105-111 | the value of a pixel does not depend on the order of the points |
| Depth.NearestUnique | src/nuscenes_gs/depth.py:105-111 | the nearest-depth value of a pixel is unique |
| Depth.CoveredSame | src/nuscenes_gs/depth.py:105-111 | whether some point lands on a pixel does not depend on the order of the points |
| Depth.NearestGrid | src/nuscenes_gs/depth.py:103 | the float map has h rows of w entries |
| Depth.ToMillimetres | src/nuscenes_gs/depth.py:115 | the encoding keeps the shape of the map |
| Depth.DepthRaster | src/nuscenes_gs/depth.py:102-115 | the uint16 raster has h rows of w entries |
| Depth.ZeroRaster | src/nuscenes_gs/depth.py:64 | `np.zeros((h, w))` is h rows of w zeros |
| Depth.ContributingMask | src/nuscenes_gs/depth.py:59-100 | a point reaches the rasterising loop exactly when it is static, in front of the camera, within the depth range and inside the image |
| Depth.Candidates | src/nuscenes_gs/depth.py:59-100 | the loop receives one hit per contributing point |
| Depth.CandidatesContribute | src/nuscenes_gs/depth.py:59-100 | every hit lands inside the image, with a positive depth inside the range |
| Depth.MaskIsStaged | src/nuscenes_gs/depth.py:59-100 | the four successive filters give the element-wise contributing mask, and each keeps no more points than the one before |
| Depth.StagesFront | src/nuscenes_gs/depth.py:66-73 | transforming the static points and dropping those behind the camera equals masking all points |
| Depth.StagesRange | src/nuscenes_gs/depth.py:78-84 | the depth-range filter on the survivors equals the element-wise mask over all points |
| Depth.StagesBounds | src/nuscenes_gs/depth.py:89-100 | the bounds filter on the survivors equals the element-wise mask over all points |
| Depth.CandidatesAre | src/nuscenes_gs/depth.py:99-106 | the pixels and depths the loop zips are those of the hits |
| Depth.ExpectedDepth | src/nuscenes_gs/depth.py:24-117 | fails exactly when labels and points differ in number; otherwise the raster has the image's shape |
| Depth.ExpectedDepthPixel | src/nuscenes_gs/depth.py:24-117 | with a minimum depth of at least 1 mm, every pixel is 0 exactly where no contributing point lands, and otherwise the encoding of the nearest landing point's depth |
| Depth.RasterPixel | src/nuscenes_gs/depth.py:102-115 | every raster pixel encodes the nearest hit that lands on it, or is 0 when none does |
| Depth.RasterOrderIndependent | src/nuscenes_gs/depth.py:105-111 | the raster does not depend on the order of the hits |
| Depth.NoCandidatesZero | src/nuscenes_gs/depth.py:62-87 | with no surviving point the raster is all zeros, as each early return gives |
| Depth.Zip | src/nuscenes_gs/depth.py:106 | one hit per (pixel, depth) pair |
| Depth.FillDepthMap | src/nuscenes_gs/depth.py:102-111 | the rasterising loop computes the nearest-point grid of its hits |
| Depth.ProjectLidarToDepth | src/nuscenes_gs/depth.py:24-117 | the filtering, projecting and rasterising code computes the depth-map specification for its keyword arguments |
| DepthScene.FrameDepthShape | src/nuscenes_gs/depth.py:171-186 | each frame's raster has the height and width of its camera image |
| DepthScene.FrameDepthLabels | src/nuscenes_gs/depth.py:158-186 | a frame fails for its labels only when their count differs from the point count |
| DepthScene.DepthMapOfSample | src/nuscenes_gs/depth.py:148-186 | one loop body: its lookups, loads, transforms and projection give the frame's specified raster or error |
| DepthScene.GenerateDepthMapsForScene | src/nuscenes_gs/depth.py:120-197 | the scene loop writes the rasters of the iterations that finish, then returns the specified paths or the first error the walk meets |
| DepthScene.StartDepthWalk | src/nuscenes_gs/depth.py:143-145 | before the loop, nothing is written and the whole walk lies ahead |
| DepthScene.DepthWalkFails | src/nuscenes_gs/depth.py:147-186 | a failing lookup or frame stops the whole walk with that error, after exactly the iterations done so far |
| DepthScene.DepthAdvance | src/nuscenes_gs/depth.py:188-195 | one iteration records frame i's path under i and writes its raster to that path |
| DepthScene.PathsGrow | src/nuscenes_gs/depth.py:191 | adding `depth_paths[n]` to the paths of frames 0..n-1 gives the paths of frames 0..n |
| DepthScene.WrittenGrows | src/nuscenes_gs/depth.py:189-190 | writing frame n after frames 0..n-1 gives the writes of frames 0..n |
| DepthScene.DepthWalkEnds | src/nuscenes_gs/depth.py:147-197 | at the end of the chain, the walk has succeeded with exactly the rasters written |
| DepthScene.DepthDoneOnSuccess | src/nuscenes_gs/depth.py:147-195 | when the walk succeeds, every iteration finishes |
| DepthScene.DepthDoneFollowsChain | src/nuscenes_gs/depth.py:147-195 | the finished iterations are a prefix of the chain, each with its own keyframe's raster; a failing walk fails at the keyframe right after that prefix, with that keyframe's error |
| DepthScene.DepthWrittenFollowsChain | src/nuscenes_gs/depth.py:188-191 | the files written before the walk stops are `depth/NNNN.png` in frame order, holding the rasters of a prefix of the chain |
| DepthScene.DepthMapsWritten | src/nuscenes_gs/depth.py:139-195 | whatever the outcome, file i is `depth/NNNN.png` with keyframe i's raster for a prefix of the chain; an error inside the chain is the error of the keyframe after that prefix; a missing scene writes nothing |
| DepthScene.DepthWalkFollowsChain | src/nuscenes_gs/depth.py:147-195 | one raster per keyframe of the chain, in order, each that keyframe's own raster |
| DepthScene.DepthMapsContents | src/nuscenes_gs/depth.py:120-197 | the returned dictionary has keys 0..n−1 for the n keyframes, with distinct paths `depth/NNNN.png`; frame i's file holds keyframe i's raster |
| Export.IntrinsicsOf | src/nuscenes_gs/nerfstudio_export.py:53-62 | fl_x, fl_y, cx and cy are K[0,0], K[1,1], K[0,2] and K[1,2]; w and h are the first image's size |
| Export.WalkFollowsChain | src/nuscenes_gs/nerfstudio_export.py:42-80 | a successful walk gives one camera record per keyframe, in chain order; the first record has a usable intrinsic matrix, and the chain ends on an empty `next` |
| Export.WalkSucceeds | src/nuscenes_gs/nerfstudio_export.py:42-80 | the walk succeeds when every keyframe has its camera records, the chain ends on an empty `next`, and the first intrinsic is usable |
| Export.FramesOf | src/nuscenes_gs/nerfstudio_export.py:72-77 | one manifest frame per camera record |
| Export.FramesOfAt | src/nuscenes_gs/nerfstudio_export.py:72-79 | frame i is built from record i with index i |
| Export.CopiesOf | src/nuscenes_gs/nerfstudio_export.py:67-70 | one copy per camera record |
| Export.CopiesOfAt | src/nuscenes_gs/nerfstudio_export.py:67-70 | copy i copies record i's image to `images/NNNN.jpg` |
| Export.CompletedOnSuccess | src/nuscenes_gs/nerfstudio_export.py:42-80 | when the walk succeeds, every iteration finishes |
| Export.CompletedFollowsChain | src/nuscenes_gs/nerfstudio_export.py:42-80 | the finished iterations are a prefix of the chain, each with its own keyframe's camera records; a failing walk stops at the keyframe right after that prefix, with that keyframe's lookup error or, on the first keyframe, an unusable intrinsic |
| Export.CompletedCopies | src/nuscenes_gs/nerfstudio_export.py:67-70 | the copies made before the walk stops put the images of a prefix of the chain at `images/NNNN.jpg`, all of the chain when the walk succeeds |
| Export.CollectFrames | src/nuscenes_gs/nerfstudio_export.py:42-80 | the exporters' loop stops with the walk's first error, or none, holding the frames, copies and intrinsics of exactly the iterations that finished |
| Export.CollectFails | src/nuscenes_gs/nerfstudio_export.py:43-62 | a missing sample, a missing camera record or an unusable first intrinsic ends the walk with that error, keeping what was gathered so far |
| Export.Advance | src/nuscenes_gs/nerfstudio_export.py:52-80 | one iteration appends frame idx and its copy, reads the intrinsics only when none are held yet, and moves to `next` |
| Export.CollectSucceeds | src/nuscenes_gs/nerfstudio_export.py:42-80 | when the chain ends, the gathered frames, copies and intrinsics are the specified ones |
| Export.WalkStep | src/nuscenes_gs/nerfstudio_export.py:42-80 | a walk from a good sample is that sample's camera record followed by the walk from its `next` |
| Export.AppendFrame | src/nuscenes_gs/nerfstudio_export.py:52-77 | appending a record appends its frame and copy, and sets the intrinsics only on the first record |
| Export.FramesAppend | src/nuscenes_gs/nerfstudio_export.py:72-79 | the frames of a longer walk extend those of the shorter one by the new frame |
| Export.CopiesAppend | src/nuscenes_gs/nerfstudio_export.py:67-70 | the copies of a longer walk extend those of the shorter one by the new copy |
| Export.ExportScene | src/nuscenes_gs/nerfstudio_export.py:15-94 | scene lookup, loop, mask generation and manifest give the specified copies, together with the manifest or the error |
| Export.ExportSceneFront | src/nuscenes_gs/nerfstudio_export.py:15-94 | the unmasked exporter gives the specified export without mask paths |
| Export.ExportSceneFrontWithLidarMasks | src/nuscenes_gs/nerfstudio_export.py:97-196 | the LiDAR-masked exporter gives the specified masked export for the generator's outcome |
| Export.ExportSceneFrontWithBBoxMasks | src/nuscenes_gs/nerfstudio_export.py:199-298 | the box-masked exporter gives the specified masked export for the generator's outcome |
| Export.ExportFrames | src/nuscenes_gs/nerfstudio_export.py:42-88 | one frame and one copy per keyframe, in order. Frame i is `images/NNNN.jpg`, with that keyframe's own `compute_c2w` and, when masked, `masks/NNNN.png`. Copy i puts that keyframe's image at the frame's path |
| Export.ExportFrameAt | src/nuscenes_gs/nerfstudio_export.py:64-77 | frame i and copy i are built from keyframe i's camera records |
| Export.ExportIsWalk | src/nuscenes_gs/nerfstudio_export.py:42-88 | a successful export is the manifest and copies of a nonempty walk whose first intrinsic is usable |
| Export.ExportCopies | src/nuscenes_gs/nerfstudio_export.py:67-70 | whatever the outcome, copy i puts keyframe i's image at `images/NNNN.jpg` for a prefix of the chain. A successful walk copies every keyframe, even when the generator then raises. A failing walk raises the error of the keyframe after the prefix. An error before the loop copies nothing |
| Export.ExportIntrinsics | src/nuscenes_gs/nerfstudio_export.py:52-88 | the manifest is "OPENCV", with the first keyframe's image size and its K[0,0], K[1,1], K[0,2], K[1,2] |
| Export.ExportPathsDistinct | src/nuscenes_gs/nerfstudio_export.py:158-167 | frames have pairwise distinct image paths, copy destinations and mask paths, and no mask path is an image path |
| Export.EmptySceneFails | src/nuscenes_gs/nerfstudio_export.py:82-88 | a scene without keyframes copies nothing and fails, because `**intrinsic` is applied to None |
| Export.MaskCountIgnored | src/nuscenes_gs/nerfstudio_export.py:174-190 | the number of masks the generator reports does not change the export |
| Export.MaskedIsPlainPlusMasks | src/nuscenes_gs/nerfstudio_export.py:161-167 | the masked export makes the same copies as the plain one and succeeds exactly when it does: with the same error, or with the same frames plus `masks/NNNN.png` |
| Export.FrameMasked | src/nuscenes_gs/nerfstudio_export.py:161-167 | a masked frame is the plain frame plus its mask path |
| Export.ExportSucceeds | src/nuscenes_gs/nerfstudio_export.py:15-94 | an export succeeds when the scene has keyframes whose camera records all exist, the chain ends, the first intrinsic is usable and the generator returns |

## Left out

- File I/O is not modelled: reading point clouds and labels (`load_lidar_points_and_labels`),
  opening images with PIL, `shutil.copy2`, `cv2.imwrite`, `mkdir` and `json.dump`.
  - What is read is an input of the model; a file that cannot be read is an error value.
  - What is written is part of the result, including what was written before an error.
  - Progress `print`s are left out.
- Every write succeeds in the model. `shutil.copy2` raising (for example `FileNotFoundError`
  for a missing source image), `mkdir` or `json.dump` raising, and a `False` returned by
  `cv2.imwrite` (which the source ignores) have no counterpart. A copy in the model is the
  intended source and destination, not a check that the source exists.
- Depth.ToMillimetres, Depth.ProjectLidarToDepth: the model stores min(trunc(1000·d), 65535)
  per pixel, the corrected encoding. The source casts `(depth_map * 1000).astype(np.uint16)`
  with no bound (`src/nuscenes_gs/depth.py:115`), so for depths of 65.536 m and more what it
  stores is platform-defined; see "Findings".
- Float arithmetic is not modelled. All arithmetic is on exact reals: float64 rounding, the
  float32 depth map (`np.float32`) and NaN/inf propagation are left out. A zero homogeneous
  coordinate in a projection is a `NonFinite` pixel, which never passes a bounds test, as inf
  and NaN do not.
- pyquaternion's shortcut of not renormalising a quaternion whose norm is within 1e-14 of 1 is
  not modelled; the model always normalises exactly.
- `np.linalg.inv` is modelled only on the matrices the code gives it, rigid transforms. Its
  general LU-based inverse and ill-conditioned near-singular inputs are not part of the model.
- `generate_lidar_masks_for_scene` and `generate_bbox_masks_for_scene` are not defined in
  `masks.py`, so their bodies are not part of this model. Each masked exporter takes the
  generator's outcome as an input: the import fails, the generator raises, or it returns some
  number of masks. The number is unused, as in the source.
- `create_label_overlay` and the other visualisation helpers of `masks.py` are not part of this
  model; no exporter calls them.
- Cyclic sample chains are left out. On them Python loops forever; every walk here requires a
  ghost bound within which the chain ends.
- DepthScene.FrameDepth: an intrinsic matrix that is not exactly 3×3 is reported as
  `IntrinsicIndexError` before projection. Python only fails at `K @ points_cam.T`
  (`src/nuscenes_gs/depth.py:90`). It therefore returns the zero map when no point reaches the
  projection, and it accepts a K with more than three rows of three entries.
- Scenes.IsIntrinsic: the kinds of Python error are merged. An intrinsic list that is too small
  (IndexError) and a ragged one (ValueError from `np.array`) both give `IntrinsicIndexError`.
- A failed lookup keeps its table and token, but not Python's exception message.

## Findings

| source | as written | input that shows it | evidently intended | confidence | as-written member | corrected member |
|---|---|---|---|---|---|---|
| src/nuscenes_gs/depth.py:115 | `(depth_map * 1000).astype(np.uint16)` converts metres to millimetres with no bound, while the default `depth_range` (line 31) admits depths up to 80 m | a static point 70 m in front of the camera, inside the image: 70000 mm does not fit in uint16 (at most 65535), and the out-of-range float-to-uint16 cast is undefined in numpy (it commonly wraps modulo 65536, to 4464, which reads as 4.464 m) | every stored value fits in uint16: either the range is capped at 65.535 m or the value saturates, so a far point never reads as near | not executed | Depth.DefaultRangeOverflows | Depth.Millimetres |
