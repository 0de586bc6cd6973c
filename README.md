# Pose overlay pipeline

A model of the keypoint path of a React Native pose-tracking app, between
the MoveNet detector and the SVG overlay drawn over the camera preview.

- `CameraStream` (camera_stream.dfy) models the camera component's
  model-to-screen conversion. It covers the tensor sizes (180 wide, 320 or
  240 tall depending on the platform's aspect ratio, swapped in landscape
  except on Android), the texture rotation table, and `convertPoses`. That
  function drops keypoints scoring 0.3 or less, mirrors x on Android or with
  the back camera, rescales from tensor space to preview space, and fills in
  a score of 0 and the name `unknown` where they are missing. It also covers
  the per-frame fps figure `floor(1000 / latency)`.
- `PoseCanvas` (pose_canvas.dfy) models the overlay. `renderPose` is a
  method proved equal to the function `PoseElements`; its two push loops
  are the methods `PushSkeleton` and `PushKeypointMarks`. That function lists, in order: a line per skeleton edge
  whose two keypoints both score above 0.4; a circle (and optionally a
  percentage label) per keypoint above 0.4 when keypoints are shown; and an
  overall-confidence label when the mean score exceeds 0.5. The component
  renders nothing for an empty pose list.
- `Pipeline` (pipeline.dfy) puts the two together. It shows that the
  overlay identifies keypoints by position only, while the conversion closes
  the gaps left by dropped keypoints. For example, when only the nose is
  dropped, position i holds landmark i + 1.
- `PoseTypes` (pose_types.dfy) holds the keypoint and pose records (the app's
  and the detector's), and `Numeric` (numeric.dfy) holds `Math.round`.

Coordinates and scores are exact reals. The platform, the window width, the
screen orientation and the camera facing are parameters (`StreamContext`),
not globals. A missing detector score or name is an `Option`. The NaN mean
of an empty pose is `None`.

Three behaviours of the code are worth knowing:
- x is mirrored on Android and, elsewhere, for the back camera, so the
  front camera off Android is the one case left unmirrored
  (`OnlyFrontCameraOffAndroidIsUnmirrored`, `CamerasMirrorEachOther`).
- Keypoints scoring 0.3 or less are removed, so a pose can have fewer than
  17 keypoints, and the overlay, which finds keypoints by position, then
  reads shifted landmarks (`DroppedLandmarkShiftsPositions`).
- The fps figure is `floor(1000 / latency)` for each frame.

## Model

The functions that define the model carry no contract of their own; the
lemmas and methods in the table below state what they mean:
`PoseElements` (see `RenderPose`, `PoseElementsMembers`, `PrimitiveBudget`),
`SkeletonLines` (`SkeletonLinesShape`, `PushSkeleton`),
`KeypointElements` (`KeypointElementsSound`, `KeypointElementsComplete`,
`PushKeypointMarks`), `KeypointMarks` (`KeypointMarksShape`),
`OverallLabel` (`ConfidenceLabelRules`), `MirrorX` (`MirrorIsInvolution`),
`ScaleToPreview` (`ScaleStaysInPreview`, `ScaleIsMonotone`,
`ScaleOfMirrorsSumToExtent`), `FlipsX`
(`OnlyFrontCameraOffAndroidIsUnmirrored`) and `IsPortrait`
(`TurningSwapsAxes`, `TensorSizeIsOrientedPair`).


| member | source | states |
|---|---|---|
| Numeric.Round | components/TensorCameraStream.tsx:23 | `Math.round` gives the integer within half of x, with halves rounded up |
| Numeric.RoundOfInteger | components/TensorCameraStream.tsx:23 | rounding an integer leaves it unchanged |
| CameraStream.AspectRatio | components/TensorCameraStream.tsx:19-23 | the frame ratio (9/16 on iOS, 3/4 elsewhere) lies strictly between 0 and 1 |
| CameraStream.OutputTensorHeight | components/TensorCameraStream.tsx:22-23 | the tensor height is 320 on iOS and 240 elsewhere, and height times ratio is exactly the width 180 |
| CameraStream.CamPreviewHeight | components/TensorCameraStream.tsx:18-19 | the preview height is the window width over the ratio to within half a unit, and non-negative for a non-negative width |
| CameraStream.TensorWidth | components/TensorCameraStream.tsx:117-122 | the tensor width is positive, so the scaling never divides by zero |
| CameraStream.TensorHeight | components/TensorCameraStream.tsx:124-128 | the tensor height is positive |
| CameraStream.TensorSizeIsOrientedPair | components/TensorCameraStream.tsx:110-128 | the getters return {180, H} in some order; the tensor is narrower than tall exactly in portrait or on Android; the area is unchanged |
| CameraStream.TurningSwapsAxes | components/TensorCameraStream.tsx:110-128 | turning between portrait and landscape (as `isPortrait` reads the orientation) swaps the preview axes the conversion scales to and, off Android, the tensor's width and height; on Android the tensor keeps its shape |
| CameraStream.TextureRotationDegrees | components/TensorCameraStream.tsx:130-147 | the rotation is always 0, 90, 180 or 270 |
| CameraStream.AndroidNeverRotates | components/TensorCameraStream.tsx:131-134 | on Android the rotation is 0 for every orientation and facing |
| CameraStream.LandscapeRotationsAreOpposite | components/TensorCameraStream.tsx:137-146 | off Android, landscape-left turns 270 for the front camera and 90 for the back, landscape-right the reverse, so opposite landscapes and opposite cameras add to 360; portrait-down is 180; upright and unknown orientations are 0 |
| CameraStream.OnlyFrontCameraOffAndroidIsUnmirrored | components/TensorCameraStream.tsx:231 | `flipX` is false exactly for the front camera on a platform other than Android |
| CameraStream.MirrorIsInvolution | components/TensorCameraStream.tsx:231-232 | mirroring twice restores x; it moves x only when flipping (and x is not the midpoint); it keeps [0, W] inside [0, W] |
| CameraStream.ScaleStaysInPreview | components/TensorCameraStream.tsx:236-239 | a coordinate within the tensor extent maps within the preview extent |
| CameraStream.ScaleIsMonotone | components/TensorCameraStream.tsx:236-239 | the rescaling preserves the order of coordinates |
| CameraStream.ScaleOfMirrorsSumToExtent | components/TensorCameraStream.tsx:232-237 | a coordinate and its mirror image rescale to positions adding up to the preview extent |
| CameraStream.ScoreOrZero | components/TensorCameraStream.tsx:228-244 | a present score passes through; any nonzero result, in particular any score above 0.3, was a present score, so the filter's default (`?? 0`) and the map's default (a logical or with 0) agree on every kept keypoint |
| CameraStream.NameOrUnknown | components/TensorCameraStream.tsx:245 | the name is never empty; a present non-empty name passes through, and a missing or empty one becomes `unknown` |
| CameraStream.ConvertKeypoint | components/TensorCameraStream.tsx:229-246 | a keypoint the filter keeps comes out with exactly its detector score, above 0.3; every keypoint comes out with a non-empty name |
| CameraStream.ConvertedKeypointInPreview | components/TensorCameraStream.tsx:229-246 | a keypoint inside the tensor rectangle lands inside the preview rectangle, whether or not it is mirrored |
| CameraStream.CamerasMirrorEachOther | components/TensorCameraStream.tsx:230-239 | off Android the front and back cameras put a keypoint at mirror images across the preview width; on Android they agree; y never depends on the facing |
| CameraStream.FilterConfident | components/TensorCameraStream.tsx:227-228 | the filter keeps no more keypoints than it gets, keeps only those scoring above 0.3 (a missing score counting as 0), and keeps every one of those |
| CameraStream.FilterIsSubsequence | components/TensorCameraStream.tsx:228 | the kept keypoints are a subsequence of the input, in the input's order |
| CameraStream.FilterAppend | components/TensorCameraStream.tsx:228 | the filter works element by element: filtering a concatenation concatenates the filtered parts |
| CameraStream.FilterKeepsAllConfident | components/TensorCameraStream.tsx:228 | when every keypoint scores above 0.3, nothing is dropped |
| CameraStream.FilterIsIdempotent | components/TensorCameraStream.tsx:228 | filtering twice drops nothing more |
| CameraStream.ConvertKeypoints | components/TensorCameraStream.tsx:229-247 | the map keeps the length, and position i is the conversion of input keypoint i |
| CameraStream.ConvertPose | components/TensorCameraStream.tsx:226-252 | a converted pose never gains keypoints; each of its keypoints scores above 0.3 and is named; a present pose score passes through and any nonzero one was present |
| CameraStream.ConvertPoses | components/TensorCameraStream.tsx:225-253 | exactly one output pose per input pose, in the same order |
| CameraStream.ConvertedKeypointsAreConfident | components/TensorCameraStream.tsx:226-251 | a converted pose has no more keypoints than its input; each scores above 0.3 and keeps an input keypoint's score and name; a missing pose score becomes 0 |
| CameraStream.ConvertKeepsPositionsWhenNoneDropped | components/TensorCameraStream.tsx:227-247 | with no keypoint at or below 0.3, output position j is the conversion of input position j |
| CameraStream.PortraitBackCameraExample | components/TensorCameraStream.tsx:229-246 | iOS portrait, back camera, window 360: keypoint (45, 80) becomes (270, 160) with its score and the name `unknown` |
| CameraStream.Fps | components/TensorCameraStream.tsx:192-193 | for a positive latency L in ms, fps is the largest integer with fps * L <= 1000 (so 0..1000); a negative latency gives a negative figure |
| CameraStream.FloorOfQuotient | components/TensorCameraStream.tsx:193 | `Math.floor` of an exact quotient by a positive divisor is the integer quotient |
| CameraStream.FpsIsAntitone | components/TensorCameraStream.tsx:192-193 | a longer latency never reports a higher fps |
| PoseCanvas.KeypointNames | components/PoseCanvas.tsx:40-45 | there are 17 landmark names |
| PoseCanvas.Connections | components/PoseCanvas.tsx:24-37 | there are 16 skeleton edges |
| PoseCanvas.ConnectionsWithinLandmarks | components/PoseCanvas.tsx:24-45 | every edge index lies below 17, so it names one of the landmarks |
| PoseCanvas.PointColour | components/PoseCanvas.tsx:80-85 | colour by position: 0-4 red, 5-6 green, 7-10 blue, 11-12 orange, 13 and above purple, each if and only if |
| PoseCanvas.ScoreSum | components/PoseCanvas.tsx:51 | with scores in [0, 1] the sum lies in [0, n] |
| PoseCanvas.MeanScore | components/PoseCanvas.tsx:51 | the mean is undefined (NaN) exactly for an empty pose, and lies in [0, 1] when the scores do |
| PoseCanvas.RenderPose | components/PoseCanvas.tsx:47-140 | the two push loops and the final label produce exactly `PoseElements`: lines in table order, then marks in keypoint order, then the label |
| PoseCanvas.PushSkeleton | components/PoseCanvas.tsx:54-73 | the `connections.forEach` loop pushes exactly the skeleton lines, in table order |
| PoseCanvas.PushKeypointMarks | components/PoseCanvas.tsx:77-118 | the `keypoints.forEach` loop pushes exactly each keypoint's marks, in keypoint order |
| PoseCanvas.RenderCanvas | components/PoseCanvas.tsx:142-156 | an empty pose list renders nothing at all; otherwise an SVG of the layout's size with one layer per pose, in order |
| PoseCanvas.SkeletonLinesShape | components/PoseCanvas.tsx:54-73 | for any edge table (the overlay uses `Connections()`): lines come in strictly increasing edge order, so at most one line per edge; each line belongs to a drawn edge and joins its endpoints; every drawn edge has its line |
| PoseCanvas.KeypointMarksShape | components/PoseCanvas.tsx:77-116 | one keypoint adds nothing at or below 0.4; otherwise its circle, and its score label only when scores are shown, with exactly one circle |
| PoseCanvas.KeypointElementsSound | components/PoseCanvas.tsx:76-119 | marks come in keypoint order with a circle before its label, so at most one circle and one label per keypoint; each is the circle of a keypoint above 0.4, or its label when scores are shown |
| PoseCanvas.KeypointElementsComplete | components/PoseCanvas.tsx:76-119 | every keypoint above 0.4 has its circle, and its label when scores are shown |
| PoseCanvas.CircleCountAppend | components/PoseCanvas.tsx:60-98 | the number of circles in a concatenation is the sum of the parts' numbers |
| PoseCanvas.OneCirclePerDrawableKeypoint | components/PoseCanvas.tsx:76-98 | the number of circles equals the number of keypoints scoring above 0.4 |
| PoseCanvas.CircleCountNone | components/PoseCanvas.tsx:60-70 | a list of primitives with no circle counts none |
| PoseCanvas.LineDrawnIffBothEndsConfident | components/PoseCanvas.tsx:54-73 | a line for edge c is emitted if and only if both its keypoints exist and score above 0.4, and it joins those keypoints |
| PoseCanvas.PoseElementsMembers | components/PoseCanvas.tsx:47-139 | every primitive of a pose is a drawn edge's line, a shown keypoint's circle, a shown score label or the confidence label; every drawn edge and shown keypoint is present |
| PoseCanvas.HiddenMarksAreNotDrawn | components/PoseCanvas.tsx:76-119 | with keypoints hidden there are no circles and no score labels; with scores hidden there are no score labels |
| PoseCanvas.CircleCountMatchesDrawable | components/PoseCanvas.tsx:76-98 | with keypoints shown, the pose has exactly one circle per keypoint above 0.4 |
| PoseCanvas.CircleRules | components/PoseCanvas.tsx:76-98 | each circle sits at its keypoint, which scores above 0.4, is coloured by position, and has radius/stroke 8/3 above 0.7 and 6/2 otherwise; every such keypoint has its circle when keypoints are shown |
| PoseCanvas.ScoreLabelRules | components/PoseCanvas.tsx:100-116 | a score label appears only with its keypoint's circle, only when keypoints and scores are shown, at (x+8, y-8), reading round(score*100) |
| PoseCanvas.ConfidenceLabelRules | components/PoseCanvas.tsx:121-137 | the overall label is emitted if and only if the mean score exceeds 0.5 (never for an empty pose); it sits at (20, 40), reads round(mean*100), and is green exactly when the mean exceeds 0.7, orange otherwise |
| PoseCanvas.PrimitiveBudget | components/PoseCanvas.tsx:47-139 | a pose yields at most 16 + 2 * keypoints + 1 primitives |
| PoseCanvas.DefaultOptionsShowCirclesOnly | components/PoseCanvas.tsx:20-21 | with the default props (`showConfidence` false, `showKeypoints` true) a pose has one circle per keypoint above 0.4 and no score label |
| PoseCanvas.EmptyPoseDrawsNothing | components/PoseCanvas.tsx:47-139 | a pose without keypoints yields no primitive |
| PoseCanvas.NoKeypointsNoLines | components/PoseCanvas.tsx:54-59 | with no keypoints no edge is drawn |
| PoseCanvas.EdgeThresholdExample | components/PoseCanvas.tsx:58-59 | scores (0.5, 0.3) give no line for the first edge; (0.5, 0.5) give one |
| Pipeline.DroppedLandmarkShiftsPositions | components/TensorCameraStream.tsx:226-228 | when only the nose is dropped (the other sixteen scoring above 0.3), position i holds landmark i+1; if both eyes score above 0.4 the overlay's nose-to-left-eye edge joins the eyes; the right knee-to-ankle edge is never drawn |
| Pipeline.ConvertedPoseBudget | components/PoseCanvas.tsx:47-139 | a converted detector pose with n keypoints yields at most 16 + 2n + 1 primitives |

## Left out

- The frame loop `handleCameraStream` (components/TensorCameraStream.tsx:149-223) is left out. It is scheduled by `requestAnimationFrame`, awaits the detector and ends GL frames. Its `rafId` sentinel, tensor disposal and `AUTO_RENDER` switch are async scheduling and resource handling over foreign libraries. Only its fps expression is modelled.
- TensorFlow and MoveNet set-up, detector disposal and the orientation listener (components/TensorCameraStream.tsx:57-108) are left out. They are asynchronous calls into foreign libraries. The orientation they report is a parameter instead.
- hooks/usePoseDetection.ts, the layouts and metro.config.js are not part of this model. They hold no keypoint logic.
- The camera screen's stats panel (app/(tabs)/camera.tsx:60-74) is not part of this model. It averages keypoint scores for display, the same per-pose mean as the overlay's `MeanScore`, and it lies outside the path from the detector to the overlay.
- `Dimensions.get`, `Platform.OS` and the camera facing are parameters of `StreamContext`. The overlay's layout size is a parameter of `RenderCanvas`.
- Styles are left out because they decide nothing that is drawn: line colour and opacity, label fonts and strokes, and the overlay's unused `cameraFacing` property. React keys are kept only as the pose, edge and keypoint positions they are built from.
- IEEE floating point is left out. Coordinates and scores are exact reals. `Math.round` is the floor of x + 0.5. Mean and fps are exact.
- NaN and Infinity are left out. NaN appears only as the empty-pose mean (`None`). Infinity (latency 0) is excluded by the precondition of `CameraStream.Fps`.
- CameraStream.Fps: the latency is an integer number of milliseconds (`Date.now` differences), and latency 0 is excluded because the source then reports Infinity.
