/** The camera stream's model-to-screen conversion: how large the camera
    tensor is, how the camera texture is rotated, how detector keypoints are
    filtered, mirrored and rescaled into the preview, and the fps figure
    reported for each processed frame. */
module CameraStream {
  import opened PoseTypes
  import opened Numeric

  datatype Platform = Android | IOS | OtherPlatform

  /** The screen orientations the orientation listener can report. */
  datatype Orientation = Unknown | PortraitUp | PortraitDown | LandscapeLeft | LandscapeRight

  datatype Facing = Front | Back

  /** Everything the conversion depends on: the platform and the window
      width (globals of the component), the orientation (its state) and the
      camera facing (its property). */
  datatype StreamContext = StreamContext(platform: Platform, orientation: Orientation, facing: Facing, windowWidth: real)

  /** Width of the camera tensor handed to the detector, in portrait. */
  const OutputTensorWidth: int := 180

  /** Keypoints scoring at most this are dropped by the conversion. */
  const MinKeypointScore: real := 0.3

  /** Width over height of the camera frame: 9:16 on iOS, 3:4 elsewhere. */
  function AspectRatio(p: Platform): (ratio: real)
    ensures 0.0 < ratio < 1.0
  {
    if p == IOS then 9.0 / 16.0 else 3.0 / 4.0
  }

  /** Height of the camera tensor in portrait: the width over the aspect
      ratio, rounded. The rounding is exact, so the tensor keeps the ratio. */
  function OutputTensorHeight(p: Platform): (h: int)
    ensures h == if p == IOS then 320 else 240
    ensures h as real * AspectRatio(p) == OutputTensorWidth as real
  {
    var exact := OutputTensorWidth as real / AspectRatio(p);
    assert exact == if p == IOS then 320.0 else 240.0;
    RoundOfInteger(if p == IOS then 320 else 240);
    Round(exact)
  }

  /** Width of the preview: the window's width. */
  function CamPreviewWidth(ctx: StreamContext): real
  {
    ctx.windowWidth
  }

  /** Height of the preview: the window width over the aspect ratio, rounded. */
  function CamPreviewHeight(ctx: StreamContext): (h: int)
    ensures ctx.windowWidth >= 0.0 ==> h >= 0
    ensures ctx.windowWidth / AspectRatio(ctx.platform) - 0.5 < h as real <= ctx.windowWidth / AspectRatio(ctx.platform) + 0.5
  {
    Round(ctx.windowWidth / AspectRatio(ctx.platform))
  }

  predicate IsPortrait(o: Orientation)
  {
    o == PortraitUp || o == PortraitDown
  }

  /** Width of the tensor the camera produces: swapped with the height in
      landscape, except on Android. */
  function TensorWidth(ctx: StreamContext): (w: int)
    ensures w > 0
  {
    if IsPortrait(ctx.orientation) || ctx.platform == Android
    then OutputTensorWidth
    else OutputTensorHeight(ctx.platform)
  }

  function TensorHeight(ctx: StreamContext): (h: int)
    ensures h > 0
  {
    if IsPortrait(ctx.orientation) || ctx.platform == Android
    then OutputTensorHeight(ctx.platform)
    else OutputTensorWidth
  }

  /** Turning the device between portrait and landscape swaps the preview
      axes the conversion scales to and, except on Android, the tensor's
      width and height; on Android the tensor keeps its shape. */
  lemma TurningSwapsAxes(ctx: StreamContext, o: Orientation)
    requires IsPortrait(ctx.orientation) != IsPortrait(o)
    ensures PreviewExtentX(ctx.(orientation := o)) == PreviewExtentY(ctx)
    ensures PreviewExtentY(ctx.(orientation := o)) == PreviewExtentX(ctx)
    ensures ctx.platform != Android ==>
      TensorWidth(ctx.(orientation := o)) == TensorHeight(ctx) && TensorHeight(ctx.(orientation := o)) == TensorWidth(ctx)
    ensures ctx.platform == Android ==>
      TensorWidth(ctx.(orientation := o)) == TensorWidth(ctx) && TensorHeight(ctx.(orientation := o)) == TensorHeight(ctx)
  {
  }

  /** The two getters always return the two tensor dimensions in some order:
      the tensor stands upright (narrower than tall) exactly in portrait or
      on Android, and lies on its side otherwise. */
  lemma TensorSizeIsOrientedPair(ctx: StreamContext)
    ensures multiset{TensorWidth(ctx), TensorHeight(ctx)} == multiset{OutputTensorWidth, OutputTensorHeight(ctx.platform)}
    ensures TensorWidth(ctx) < TensorHeight(ctx) <==> (IsPortrait(ctx.orientation) || ctx.platform == Android)
    ensures TensorWidth(ctx) * TensorHeight(ctx) == OutputTensorWidth * OutputTensorHeight(ctx.platform)
  {
  }

  /** Rotation, in degrees, applied to the camera texture. */
  function TextureRotationDegrees(ctx: StreamContext): (deg: int)
    ensures deg == 0 || deg == 90 || deg == 180 || deg == 270
  {
    if ctx.platform == Android then 0
    else
      match ctx.orientation
      case PortraitDown => 180
      case LandscapeLeft => if ctx.facing == Front then 270 else 90
      case LandscapeRight => if ctx.facing == Front then 90 else 270
      case _ => 0
  }

  /** Android never rotates the texture. */
  lemma AndroidNeverRotates(ctx: StreamContext)
    requires ctx.platform == Android
    ensures TextureRotationDegrees(ctx) == 0
  {
  }

  /** Away from Android: landscape-left turns the front camera's texture by
      270 degrees and the back camera's by 90, landscape-right the reverse,
      so the two landscapes, and the two cameras in one landscape, turn in
      opposite directions. Upside-down portrait is a half turn for either
      camera; upright portrait and an unknown orientation need no rotation. */
  lemma LandscapeRotationsAreOpposite(ctx: StreamContext)
    requires ctx.platform != Android
    ensures ctx.orientation == LandscapeLeft ==> TextureRotationDegrees(ctx) == (if ctx.facing == Front then 270 else 90)
    ensures ctx.orientation == LandscapeRight ==> TextureRotationDegrees(ctx) == (if ctx.facing == Front then 90 else 270)
    ensures TextureRotationDegrees(ctx.(orientation := LandscapeLeft)) + TextureRotationDegrees(ctx.(orientation := LandscapeRight)) == 360
    ensures ctx.orientation == LandscapeLeft || ctx.orientation == LandscapeRight ==>
      TextureRotationDegrees(ctx.(facing := Front)) + TextureRotationDegrees(ctx.(facing := Back)) == 360
    ensures ctx.orientation == PortraitDown ==> TextureRotationDegrees(ctx) == 180
    ensures ctx.orientation == PortraitUp || ctx.orientation == Unknown ==> TextureRotationDegrees(ctx) == 0
  {
  }

  /** x is mirrored on Android, or when the back camera is in use. */
  predicate FlipsX(ctx: StreamContext)
  {
    ctx.platform == Android || ctx.facing == Back
  }

  /** The front camera off Android is the one case left unmirrored. */
  lemma OnlyFrontCameraOffAndroidIsUnmirrored(ctx: StreamContext)
    ensures !FlipsX(ctx) <==> ctx.platform != Android && ctx.facing == Front
  {
  }

  /** Horizontal mirror across a tensor of the given width. */
  function MirrorX(flip: bool, width: real, x: real): real
  {
    if flip then width - x else x
  }

  /** Mirroring twice gives the original coordinate back, mirroring moves
      exactly when asked to, and it keeps a coordinate inside the tensor. */
  lemma MirrorIsInvolution(flip: bool, width: real, x: real)
    ensures MirrorX(flip, width, MirrorX(flip, width, x)) == x
    ensures MirrorX(flip, width, x) == x <==> !flip || x + x == width
    ensures 0.0 <= x <= width ==> 0.0 <= MirrorX(flip, width, x) <= width
  {
  }

  /** Rescales a coordinate from a tensor extent to a preview extent. */
  function ScaleToPreview(v: real, tensorExtent: int, previewExtent: real): real
    requires tensorExtent > 0
  {
    (v / tensorExtent as real) * previewExtent
  }

  /** A coordinate inside the tensor lands inside the preview. */
  lemma ScaleStaysInPreview(v: real, tensorExtent: int, previewExtent: real)
    requires tensorExtent > 0 && previewExtent >= 0.0
    requires 0.0 <= v <= tensorExtent as real
    ensures 0.0 <= ScaleToPreview(v, tensorExtent, previewExtent) <= previewExtent
  {
    var q := v / tensorExtent as real;
    assert 0.0 <= q <= 1.0;
    assert q * previewExtent <= 1.0 * previewExtent by {
      assert (1.0 - q) * previewExtent >= 0.0;
    }
  }

  /** Rescaling keeps the order of coordinates. */
  lemma ScaleIsMonotone(v1: real, v2: real, tensorExtent: int, previewExtent: real)
    requires tensorExtent > 0 && previewExtent >= 0.0
    requires v1 <= v2
    ensures ScaleToPreview(v1, tensorExtent, previewExtent) <= ScaleToPreview(v2, tensorExtent, previewExtent)
  {
    var t := tensorExtent as real;
    assert v1 / t <= v2 / t;
    assert (v2 / t - v1 / t) * previewExtent >= 0.0;
  }

  /** Preview extent along screen x: the preview width in portrait, its
      height in landscape. */
  function PreviewExtentX(ctx: StreamContext): real
  {
    if IsPortrait(ctx.orientation) then CamPreviewWidth(ctx) else CamPreviewHeight(ctx) as real
  }

  /** Preview extent along screen y. */
  function PreviewExtentY(ctx: StreamContext): real
  {
    if IsPortrait(ctx.orientation) then CamPreviewHeight(ctx) as real else CamPreviewWidth(ctx)
  }

  /** `k.score || 0` and `k.score ?? 0`: a missing score counts as 0. Any
      other result, in particular any score above the minimum, was present,
      so the filter's default and the map's default agree on every keypoint
      the filter keeps. */
  function ScoreOrZero(s: Option<real>): (r: real)
    ensures s.Some? ==> r == s.value
    ensures r != 0.0 ==> s == Some(r)
    ensures r > MinKeypointScore ==> s == Some(r)
  {
    if s.Some? then s.value else 0.0
  }

  /** `k.name || 'unknown'`: a missing or empty name becomes "unknown". */
  function NameOrUnknown(n: Option<string>): (r: string)
    ensures r != ""
    ensures n.Some? && n.value != "" ==> r == n.value
    ensures n.None? || n.value == "" ==> r == "unknown"
  {
    if n.None? || n.value == "" then "unknown" else n.value
  }

  /** Maps one detector keypoint into preview coordinates. A keypoint the
      filter keeps comes out with exactly its detector score, and every
      keypoint comes out named. */
  function ConvertKeypoint(ctx: StreamContext, k: DetectedKeypoint): (r: Keypoint)
    ensures IsConfident(k) ==> k.score == Some(r.score) && r.score > MinKeypointScore
    ensures r.name != ""
  {
    var w := TensorWidth(ctx);
    var x := MirrorX(FlipsX(ctx), w as real, k.x);
    Keypoint(ScaleToPreview(x, w, PreviewExtentX(ctx)),
             ScaleToPreview(k.y, TensorHeight(ctx), PreviewExtentY(ctx)),
             ScoreOrZero(k.score),
             NameOrUnknown(k.name))
  }

  /** A keypoint inside the tensor rectangle lands inside the preview
      rectangle, whichever way it is mirrored. */
  lemma ConvertedKeypointInPreview(ctx: StreamContext, k: DetectedKeypoint)
    requires ctx.windowWidth >= 0.0
    requires 0.0 <= k.x <= TensorWidth(ctx) as real && 0.0 <= k.y <= TensorHeight(ctx) as real
    ensures 0.0 <= ConvertKeypoint(ctx, k).x <= PreviewExtentX(ctx)
    ensures 0.0 <= ConvertKeypoint(ctx, k).y <= PreviewExtentY(ctx)
  {
    var w := TensorWidth(ctx);
    MirrorIsInvolution(FlipsX(ctx), w as real, k.x);
    ScaleStaysInPreview(MirrorX(FlipsX(ctx), w as real, k.x), w, PreviewExtentX(ctx));
    ScaleStaysInPreview(k.y, TensorHeight(ctx), PreviewExtentY(ctx));
  }

  /** Off Android the two cameras place the same detector keypoint at
      mirror images of each other across the preview's width, at the same
      height; on Android both cameras mirror, so they agree. */
  lemma CamerasMirrorEachOther(ctx: StreamContext, k: DetectedKeypoint)
    ensures ctx.platform != Android ==>
      ConvertKeypoint(ctx.(facing := Front), k).x + ConvertKeypoint(ctx.(facing := Back), k).x == PreviewExtentX(ctx)
    ensures ctx.platform == Android ==>
      ConvertKeypoint(ctx.(facing := Front), k).x == ConvertKeypoint(ctx.(facing := Back), k).x
    ensures ConvertKeypoint(ctx.(facing := Front), k).y == ConvertKeypoint(ctx.(facing := Back), k).y
  {
    var w := TensorWidth(ctx);
    assert TensorWidth(ctx.(facing := Front)) == TensorWidth(ctx.(facing := Back)) == w;
    assert PreviewExtentX(ctx.(facing := Front)) == PreviewExtentX(ctx.(facing := Back)) == PreviewExtentX(ctx);
    if ctx.platform != Android {
      ScaleOfMirrorsSumToExtent(k.x, w, PreviewExtentX(ctx));
    }
  }

  /** A coordinate and its mirror image rescale to values that add up to
      the preview extent. */
  lemma ScaleOfMirrorsSumToExtent(v: real, tensorExtent: int, previewExtent: real)
    requires tensorExtent > 0
    ensures ScaleToPreview(v, tensorExtent, previewExtent) + ScaleToPreview(tensorExtent as real - v, tensorExtent, previewExtent) == previewExtent
  {
    var t := tensorExtent as real;
    assert v / t + (t - v) / t == 1.0;
    assert (v / t) * previewExtent + ((t - v) / t) * previewExtent == (v / t + (t - v) / t) * previewExtent;
  }

  /** The confidence filter: the score, missing counting as 0, must exceed
      the minimum keypoint score. */
  predicate IsConfident(k: DetectedKeypoint)
  {
    ScoreOrZero(k.score) > MinKeypointScore
  }

  /** `keypoints.filter(...)`: the confident keypoints, in their order. */
  function FilterConfident(ks: seq<DetectedKeypoint>): (r: seq<DetectedKeypoint>)
    ensures |r| <= |ks|
    ensures forall k | k in r :: IsConfident(k) && k in ks
    ensures forall k | k in ks && IsConfident(k) :: k in r
  {
    if ks == [] then []
    else (if IsConfident(ks[0]) then [ks[0]] else []) + FilterConfident(ks[1..])
  }

  /** a is a subsequence of b: b with some elements removed, order kept. */
  ghost predicate IsSubsequence<T>(a: seq<T>, b: seq<T>)
    decreases |b|
  {
    if a == [] then true
    else if b == [] then false
    else (a[0] == b[0] && IsSubsequence(a[1..], b[1..])) || IsSubsequence(a, b[1..])
  }

  /** The filter keeps the input's order. */
  lemma {:induction false} FilterIsSubsequence(ks: seq<DetectedKeypoint>)
    ensures IsSubsequence(FilterConfident(ks), ks)
  {
    if ks != [] {
      FilterIsSubsequence(ks[1..]);
      var rest := FilterConfident(ks[1..]);
      if IsConfident(ks[0]) {
        var r := [ks[0]] + rest;
        assert r[0] == ks[0] && r[1..] == rest;
      } else {
        assert FilterConfident(ks) == rest;
      }
    }
  }

  /** The filter works element by element: filtering a concatenation
      concatenates the filtered parts. */
  lemma {:induction false} FilterAppend(a: seq<DetectedKeypoint>, b: seq<DetectedKeypoint>)
    ensures FilterConfident(a + b) == FilterConfident(a) + FilterConfident(b)
  {
    if a == [] {
      assert a + b == b;
    } else {
      assert (a + b)[0] == a[0] && (a + b)[1..] == a[1..] + b;
      FilterAppend(a[1..], b);
    }
  }

  /** When nothing falls below the minimum score, nothing is dropped. */
  lemma {:induction false} FilterKeepsAllConfident(ks: seq<DetectedKeypoint>)
    requires forall i | 0 <= i < |ks| :: IsConfident(ks[i])
    ensures FilterConfident(ks) == ks
  {
    if ks != [] {
      FilterKeepsAllConfident(ks[1..]);
      assert [ks[0]] + ks[1..] == ks;
    }
  }

  /** Filtering is idempotent. */
  lemma FilterIsIdempotent(ks: seq<DetectedKeypoint>)
    ensures FilterConfident(FilterConfident(ks)) == FilterConfident(ks)
  {
    var r := FilterConfident(ks);
    assert forall i | 0 <= i < |r| :: r[i] in r;
    FilterKeepsAllConfident(r);
  }

  /** `.map(...)` over the kept keypoints. */
  function ConvertKeypoints(ctx: StreamContext, ks: seq<DetectedKeypoint>): (r: seq<Keypoint>)
    ensures |r| == |ks|
    ensures forall i | 0 <= i < |ks| :: r[i] == ConvertKeypoint(ctx, ks[i])
  {
    if ks == [] then [] else [ConvertKeypoint(ctx, ks[0])] + ConvertKeypoints(ctx, ks[1..])
  }

  /** One detector pose converted: confident keypoints only, in preview
      coordinates, with a missing pose score counting as 0. */
  function ConvertPose(ctx: StreamContext, p: DetectedPose): (r: Pose)
    ensures |r.keypoints| <= |p.keypoints|
    ensures forall i | 0 <= i < |r.keypoints| :: r.keypoints[i].score > MinKeypointScore && r.keypoints[i].name != ""
    ensures p.score.Some? ==> r.score == p.score.value
    ensures r.score != 0.0 ==> p.score == Some(r.score)
  {
    var kept := FilterConfident(p.keypoints);
    assert forall i | 0 <= i < |kept| :: kept[i] in kept;
    Pose(ConvertKeypoints(ctx, kept), ScoreOrZero(p.score))
  }

  /** `convertPoses`: exactly one output pose per input pose, in order. */
  function ConvertPoses(ctx: StreamContext, ps: seq<DetectedPose>): (r: seq<Pose>)
    ensures |r| == |ps|
    ensures forall i | 0 <= i < |ps| :: r[i] == ConvertPose(ctx, ps[i])
  {
    if ps == [] then [] else [ConvertPose(ctx, ps[0])] + ConvertPoses(ctx, ps[1..])
  }

  /** Every keypoint that leaves the conversion scores above 0.3 and carries
      its detector score and name (or "unknown"), and a pose never gains
      keypoints. */
  lemma ConvertedKeypointsAreConfident(ctx: StreamContext, ps: seq<DetectedPose>, i: int)
    requires 0 <= i < |ps|
    ensures |ConvertPoses(ctx, ps)[i].keypoints| <= |ps[i].keypoints|
    ensures ConvertPoses(ctx, ps)[i].score == ScoreOrZero(ps[i].score)
    ensures forall k | k in ConvertPoses(ctx, ps)[i].keypoints ::
      k.score > MinKeypointScore &&
      exists d | d in ps[i].keypoints :: d.score == Some(k.score) && k.name == NameOrUnknown(d.name)
  {
    var kept := FilterConfident(ps[i].keypoints);
    var out := ConvertPoses(ctx, ps)[i].keypoints;
    assert out == ConvertKeypoints(ctx, kept);
    forall k | k in out
      ensures k.score > MinKeypointScore
      ensures exists d | d in ps[i].keypoints :: d.score == Some(k.score) && k.name == NameOrUnknown(d.name)
    {
      var j :| 0 <= j < |out| && out[j] == k;
      assert kept[j] in kept;
      assert IsConfident(kept[j]) && kept[j] in ps[i].keypoints;
    }
  }

  /** When no keypoint is dropped, position j of the output is the
      conversion of position j of the input. */
  lemma ConvertKeepsPositionsWhenNoneDropped(ctx: StreamContext, p: DetectedPose)
    requires forall i | 0 <= i < |p.keypoints| :: IsConfident(p.keypoints[i])
    ensures |ConvertPose(ctx, p).keypoints| == |p.keypoints|
    ensures forall j | 0 <= j < |p.keypoints| :: ConvertPose(ctx, p).keypoints[j] == ConvertKeypoint(ctx, p.keypoints[j])
  {
    FilterKeepsAllConfident(p.keypoints);
  }

  /** A worked case: iOS, upright portrait, back camera, a 360-wide window.
      The tensor is 180 by 320 and the preview 360 by 640; a keypoint at
      (45, 80) is mirrored to 135 and lands at (270, 160), keeping its score
      and named "unknown" for want of a name. */
  lemma PortraitBackCameraExample()
    ensures ConvertKeypoint(StreamContext(IOS, PortraitUp, Back, 360.0), DetectedKeypoint(45.0, 80.0, Some(0.9), None))
         == Keypoint(270.0, 160.0, 0.9, "unknown")
  {
    var ctx := StreamContext(IOS, PortraitUp, Back, 360.0);
    assert CamPreviewHeight(ctx) == 640;
    assert TensorWidth(ctx) == 180 && TensorHeight(ctx) == 320;
  }

  /** `Math.floor(1000 / latency)`: frames per second implied by one
      frame's latency in milliseconds. A latency of 0 gives Infinity in the
      source and is excluded. */
  function Fps(latencyMs: int): (fps: int)
    requires latencyMs != 0
    ensures latencyMs > 0 ==> fps * latencyMs <= 1000 < (fps + 1) * latencyMs
    ensures latencyMs > 0 ==> 0 <= fps <= 1000
    ensures latencyMs < 0 ==> fps < 0
  {
    var f := (1000.0 / latencyMs as real).Floor;
    if latencyMs > 0 then
      FloorOfQuotient(1000, latencyMs);
      f
    else
      f
  }

  /** For a positive divisor, the floor of the exact quotient is the
      integer quotient. */
  lemma FloorOfQuotient(n: int, l: int)
    requires l > 0
    ensures (n as real / l as real).Floor == n / l
  {
    var d, m := n / l, n % l;
    var lr := l as real;
    assert n as real == d as real * lr + m as real;
    assert n as real / lr == d as real + m as real / lr;
    assert 0.0 <= m as real / lr < 1.0;
  }

  /** A slower frame never reports a higher frame rate. */
  lemma FpsIsAntitone(l1: int, l2: int)
    requires 0 < l1 <= l2
    ensures Fps(l2) <= Fps(l1)
  {
    var f1, f2 := Fps(l1), Fps(l2);
    assert f2 * l1 <= f2 * l2 <= 1000 < (f1 + 1) * l1;
    ProductCancels(f2, f1 + 1, l1);
  }

  /** A positive factor can be cancelled from a strict inequality. */
  lemma ProductCancels(a: int, b: int, c: int)
    requires c > 0 && a * c < b * c
    ensures a < b
  {
  }
}
