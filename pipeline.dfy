/** What the overlay draws from the camera stream's converted poses. */
module Pipeline {
  import opened PoseTypes
  import opened CameraStream
  import opened PoseCanvas

  /** The overlay knows keypoints only by position, and the conversion
      closes the gaps left by dropped keypoints. When MoveNet's first
      landmark (the nose) is dropped and the other sixteen are kept,
      position i holds landmark i + 1. If the two eyes score above the
      drawing threshold, the nose-to-left-eye edge is drawn between them;
      the right knee-to-ankle edge, whose second position no longer exists,
      is never drawn. */
  lemma DroppedLandmarkShiftsPositions(ctx: StreamContext, p: DetectedPose)
    requires |p.keypoints| == 17
    requires !IsConfident(p.keypoints[0])
    requires forall i | 1 <= i < 17 :: IsConfident(p.keypoints[i])
    ensures |ConvertPose(ctx, p).keypoints| == 16
    ensures forall i | 0 <= i < 16 :: ConvertPose(ctx, p).keypoints[i] == ConvertKeypoint(ctx, p.keypoints[i + 1])
    ensures ScoreOrZero(p.keypoints[1].score) > DrawThreshold && ScoreOrZero(p.keypoints[2].score) > DrawThreshold ==>
      EdgeDrawn(ConvertPose(ctx, p).keypoints, Connections()[0])
    ensures Connections()[15] == (14, 16) && !EdgeDrawn(ConvertPose(ctx, p).keypoints, Connections()[15])
  {
    var ks := p.keypoints;
    OnlyFirstDropped(ks);
    var conv := ConvertPose(ctx, p).keypoints;
    assert conv == ConvertKeypoints(ctx, ks[1..]);
    var cs := Connections();
    assert cs[0] == (0, 1) && cs[15] == (14, 16);
    assert conv[0].score == ScoreOrZero(ks[1].score) && conv[1].score == ScoreOrZero(ks[2].score);
  }

  /** Dropping only the first keypoint leaves the rest, in order. */
  lemma OnlyFirstDropped(ks: seq<DetectedKeypoint>)
    requires |ks| > 0 && !IsConfident(ks[0])
    requires forall i | 1 <= i < |ks| :: IsConfident(ks[i])
    ensures FilterConfident(ks) == ks[1..]
  {
    var rest := ks[1..];
    assert ks == [ks[0]] + rest;
    FilterAppend([ks[0]], rest);
    assert FilterConfident([ks[0]]) == [];
    forall i | 0 <= i < |rest|
      ensures IsConfident(rest[i])
    {
      assert rest[i] == ks[i + 1];
    }
    FilterKeepsAllConfident(rest);
  }

  /** The conversion never adds keypoints, so the overlay draws at most
      16 + 2 * n + 1 primitives for a detector pose of n keypoints. */
  lemma ConvertedPoseBudget(ctx: StreamContext, p: DetectedPose, poseIndex: nat, opts: CanvasOptions)
    ensures |PoseElements(ConvertPose(ctx, p), poseIndex, opts)| <= 16 + 2 * |p.keypoints| + 1
  {
    PrimitiveBudget(ConvertPose(ctx, p), poseIndex, opts);
  }
}
