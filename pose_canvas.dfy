/** The SVG overlay: which lines, circles and labels are drawn for each
    pose, from the keypoints' positions and scores. */
module PoseCanvas {
  import opened PoseTypes
  import opened Numeric

  /** A skeleton edge: the positions of its two keypoints. */
  type Edge = (nat, nat)

  /** MoveNet's seventeen landmarks, in the detector's order. */
  function KeypointNames(): (names: seq<string>)
    ensures |names| == 17
  {
    ["nose", "left_eye", "right_eye", "left_ear", "right_ear",
     "left_shoulder", "right_shoulder", "left_elbow", "right_elbow",
     "left_wrist", "right_wrist", "left_hip", "right_hip",
     "left_knee", "right_knee", "left_ankle", "right_ankle"]
  }

  /** The skeleton: head, torso, arms and legs. */
  function Connections(): (edges: seq<Edge>)
    ensures |edges| == 16
  {
    [(0, 1), (0, 2), (1, 3), (2, 4),
     (5, 6), (5, 11), (6, 12), (11, 12),
     (5, 7), (7, 9),
     (6, 8), (8, 10),
     (11, 13), (13, 15),
     (12, 14), (14, 16)]
  }

  /** The table has sixteen edges, and each joins two of the seventeen
      landmarks. */
  lemma ConnectionsWithinLandmarks()
    ensures |Connections()| == 16
    ensures forall c | 0 <= c < |Connections()| ::
      Connections()[c].0 < |KeypointNames()| && Connections()[c].1 < |KeypointNames()|
  {
  }

  /** Keypoints above this score are drawn and connected. */
  const DrawThreshold: real := 0.4
  /** Keypoints above this score get the larger circle. */
  const HighConfidence: real := 0.7
  /** A pose whose mean score exceeds this gets the confidence label. */
  const LabelThreshold: real := 0.5

  /** Fill colours: Red #FF3B30, Green #30D158, Blue #007AFF,
      Orange #FF9500, Purple #AF52DE. */
  datatype Colour = Red | Green | Blue | Orange | Purple

  /** The overlay's drawing primitives, each with the pose and the edge or
      keypoint position its key is built from. */
  datatype Primitive =
    | Line(poseIndex: nat, edgeIndex: nat, x1: real, y1: real, x2: real, y2: real)
    | Circle(poseIndex: nat, keypointIndex: nat, cx: real, cy: real, radius: int, strokeWidth: int, fill: Colour, opacity: real)
    | ScoreLabel(poseIndex: nat, keypointIndex: nat, x: real, y: real, percent: int)
    | ConfidenceLabel(poseIndex: nat, x: real, y: real, percent: int, fill: Colour)

  /** The display toggles; by default scores are hidden and keypoints shown. */
  datatype CanvasOptions = CanvasOptions(showConfidence: bool, showKeypoints: bool)

  const DefaultOptions: CanvasOptions := CanvasOptions(false, true)

  /** A rendered overlay: an SVG of the camera layout's size holding each
      pose's primitives. */
  datatype Scene = Svg(width: real, height: real, layers: seq<seq<Primitive>>)

  /** The fill of a keypoint, chosen by its position alone. */
  function PointColour(index: nat): (c: Colour)
    ensures c == Red <==> index <= 4
    ensures c == Green <==> 5 <= index <= 6
    ensures c == Blue <==> 7 <= index <= 10
    ensures c == Orange <==> 11 <= index <= 12
    ensures c == Purple <==> 13 <= index
  {
    if index <= 4 then Red
    else if index <= 6 then Green
    else if index <= 10 then Blue
    else if index <= 12 then Orange
    else Purple
  }

  /** An edge is drawn when both its keypoints exist and score above the
      drawing threshold. */
  predicate EdgeDrawn(kps: seq<Keypoint>, e: Edge)
  {
    e.0 < |kps| && e.1 < |kps| && kps[e.0].score > DrawThreshold && kps[e.1].score > DrawThreshold
  }

  /** The line for edge c of a skeleton table, between its two keypoints. */
  function EdgeLine(edges: seq<Edge>, kps: seq<Keypoint>, poseIndex: nat, c: nat): Primitive
    requires c < |edges| && EdgeDrawn(kps, edges[c])
  {
    var e := edges[c];
    Line(poseIndex, c, kps[e.0].x, kps[e.0].y, kps[e.1].x, kps[e.1].y)
  }

  /** The lines pushed for the first n edges of a skeleton table, in table
      order; the overlay uses `Connections()`. */
  function SkeletonLines(edges: seq<Edge>, kps: seq<Keypoint>, poseIndex: nat, n: nat): seq<Primitive>
    requires n <= |edges|
  {
    if n == 0 then []
    else
      SkeletonLines(edges, kps, poseIndex, n - 1) +
      (if EdgeDrawn(kps, edges[n - 1]) then [EdgeLine(edges, kps, poseIndex, n - 1)] else [])
  }

  /** The circle for the keypoint at position i: larger and with a thicker
      stroke above the high-confidence threshold, faded by its score. */
  function KeypointCircle(kp: Keypoint, i: nat, poseIndex: nat): Primitive
  {
    Circle(poseIndex, i, kp.x, kp.y,
           if kp.score > HighConfidence then 8 else 6,
           if kp.score > HighConfidence then 3 else 2,
           PointColour(i), kp.score)
  }

  /** The percentage label beside the keypoint at position i. */
  function KeypointScoreLabel(kp: Keypoint, i: nat, poseIndex: nat): Primitive
  {
    ScoreLabel(poseIndex, i, kp.x + 8.0, kp.y - 8.0, Round(kp.score * 100.0))
  }

  /** What one keypoint adds: nothing at or below the threshold, otherwise
      its circle and, when scores are shown, its label. */
  function KeypointMarks(kp: Keypoint, i: nat, poseIndex: nat, showConfidence: bool): seq<Primitive>
  {
    if kp.score > DrawThreshold then
      [KeypointCircle(kp, i, poseIndex)] + (if showConfidence then [KeypointScoreLabel(kp, i, poseIndex)] else [])
    else []
  }

  /** The marks pushed for the first n keypoints, in order. */
  function KeypointElements(kps: seq<Keypoint>, poseIndex: nat, showConfidence: bool, n: nat): seq<Primitive>
    requires n <= |kps|
  {
    if n == 0 then []
    else KeypointElements(kps, poseIndex, showConfidence, n - 1) + KeypointMarks(kps[n - 1], n - 1, poseIndex, showConfidence)
  }

  /** The sum of the scores, added from the left as `reduce` does. */
  function ScoreSum(kps: seq<Keypoint>): (sum: real)
    ensures (forall i | 0 <= i < |kps| :: 0.0 <= kps[i].score <= 1.0) ==> 0.0 <= sum <= |kps| as real
  {
    if kps == [] then 0.0 else ScoreSum(kps[..|kps| - 1]) + kps[|kps| - 1].score
  }

  /** The mean score; None stands for the NaN an empty pose gives. */
  function MeanScore(kps: seq<Keypoint>): (mean: Option<real>)
    ensures mean.None? <==> kps == []
    ensures mean.Some? && (forall i | 0 <= i < |kps| :: 0.0 <= kps[i].score <= 1.0) ==> 0.0 <= mean.value <= 1.0
  {
    if kps == [] then None else Some(ScoreSum(kps) / |kps| as real)
  }

  /** The overall-confidence label: present when the mean score exceeds
      0.5, green above 0.7 and orange otherwise. */
  function OverallLabel(kps: seq<Keypoint>, poseIndex: nat): seq<Primitive>
  {
    var mean := MeanScore(kps);
    if mean.Some? && mean.value > LabelThreshold then
      [ConfidenceLabel(poseIndex, 20.0, 40.0, Round(mean.value * 100.0),
                       if mean.value > HighConfidence then Green else Orange)]
    else []
  }

  /** Everything drawn for one pose: the skeleton lines, then the keypoint
      marks when keypoints are shown, then the confidence label. */
  function PoseElements(pose: Pose, poseIndex: nat, opts: CanvasOptions): seq<Primitive>
  {
    SkeletonLines(Connections(), pose.keypoints, poseIndex, |Connections()|) +
    (if opts.showKeypoints then KeypointElements(pose.keypoints, poseIndex, opts.showConfidence, |pose.keypoints|) else []) +
    OverallLabel(pose.keypoints, poseIndex)
  }

  /** `renderPose`: pushes the primitives for one pose, edge by edge and
      then keypoint by keypoint. */
  method RenderPose(pose: Pose, poseIndex: nat, opts: CanvasOptions) returns (elements: seq<Primitive>)
    ensures elements == PoseElements(pose, poseIndex, opts)
  {
    var kps := pose.keypoints;
    var mean := MeanScore(kps);
    elements := PushSkeleton(kps, poseIndex);
    if opts.showKeypoints {
      var marks := PushKeypointMarks(kps, poseIndex, opts.showConfidence);
      elements := elements + marks;
    }
    if mean.Some? && mean.value > LabelThreshold {
      var fill := if mean.value > HighConfidence then Green else Orange;
      elements := elements + [ConfidenceLabel(poseIndex, 20.0, 40.0, Round(mean.value * 100.0), fill)];
    }
  }

  /** The first loop of `renderPose`: one line per drawn edge, in table order. */
  method PushSkeleton(kps: seq<Keypoint>, poseIndex: nat) returns (lines: seq<Primitive>)
    ensures lines == SkeletonLines(Connections(), kps, poseIndex, |Connections()|)
  {
    lines := [];
    var connections := Connections();
    var c := 0;
    while c < |connections|
      invariant 0 <= c <= |connections|
      invariant lines == SkeletonLines(connections, kps, poseIndex, c)
    {
      var e := connections[c];
      if e.0 < |kps| && e.1 < |kps| && kps[e.0].score > DrawThreshold && kps[e.1].score > DrawThreshold {
        lines := lines + [Line(poseIndex, c, kps[e.0].x, kps[e.0].y, kps[e.1].x, kps[e.1].y)];
      }
      assert lines == SkeletonLines(connections, kps, poseIndex, c + 1);
      c := c + 1;
    }
  }

  /** The second loop of `renderPose`: the circle, and the score label when
      scores are shown, of every keypoint above the threshold, in order. */
  method PushKeypointMarks(kps: seq<Keypoint>, poseIndex: nat, showConfidence: bool) returns (marks: seq<Primitive>)
    ensures marks == KeypointElements(kps, poseIndex, showConfidence, |kps|)
  {
    marks := [];
    var i := 0;
    while i < |kps|
      invariant 0 <= i <= |kps|
      invariant marks == KeypointElements(kps, poseIndex, showConfidence, i)
    {
      var kp := kps[i];
      ghost var before := marks;
      if kp.score > DrawThreshold {
        var colour := PointColour(i);
        var big := kp.score > HighConfidence;
        marks := marks + [Circle(poseIndex, i, kp.x, kp.y, if big then 8 else 6, if big then 3 else 2, colour, kp.score)];
        if showConfidence {
          marks := marks + [ScoreLabel(poseIndex, i, kp.x + 8.0, kp.y - 8.0, Round(kp.score * 100.0))];
        }
      }
      assert marks == before + KeypointMarks(kp, i, poseIndex, showConfidence);
      i := i + 1;
    }
  }

  /** The component: nothing at all for an empty pose list, otherwise an SVG
      of the layout's size with one layer per pose, in order. */
  function RenderCanvas(poses: seq<Pose>, width: real, height: real, opts: CanvasOptions): (scene: Option<Scene>)
    ensures scene.None? <==> poses == []
    ensures scene.Some? ==> scene.value.width == width && scene.value.height == height && |scene.value.layers| == |poses|
    ensures scene.Some? ==> forall i | 0 <= i < |poses| :: scene.value.layers[i] == PoseElements(poses[i], i, opts)
  {
    if |poses| == 0 then None
    else Some(Svg(width, height, seq(|poses|, i requires 0 <= i < |poses| => PoseElements(poses[i], i, opts))))
  }

  /** p is the line of a drawn skeleton edge. */
  predicate IsEdgeLineOf(edges: seq<Edge>, kps: seq<Keypoint>, poseIndex: nat, p: Primitive)
  {
    p.Line? && p.edgeIndex < |edges| && EdgeDrawn(kps, edges[p.edgeIndex]) &&
    p == EdgeLine(edges, kps, poseIndex, p.edgeIndex)
  }

  /** p is the circle of a keypoint above the drawing threshold. */
  predicate IsCircleOf(kps: seq<Keypoint>, poseIndex: nat, p: Primitive)
  {
    p.Circle? && p.keypointIndex < |kps| && kps[p.keypointIndex].score > DrawThreshold &&
    p == KeypointCircle(kps[p.keypointIndex], p.keypointIndex, poseIndex)
  }

  /** p is the score label of a keypoint above the drawing threshold. */
  predicate IsScoreLabelOf(kps: seq<Keypoint>, poseIndex: nat, p: Primitive)
  {
    p.ScoreLabel? && p.keypointIndex < |kps| && kps[p.keypointIndex].score > DrawThreshold &&
    p == KeypointScoreLabel(kps[p.keypointIndex], p.keypointIndex, poseIndex)
  }

  /** Line x comes before line y in strict edge order. */
  predicate LinePrecedes(x: Primitive, y: Primitive)
  {
    x.Line? && y.Line? && x.edgeIndex < y.edgeIndex
  }

  /** The skeleton part: lines in strictly increasing edge order, so at most
      one line per edge considered; each line belonging to a drawn edge and
      joining its endpoints; and every drawn edge among the first n having
      its line. */
  lemma {:induction false} SkeletonLinesShape(edges: seq<Edge>, kps: seq<Keypoint>, poseIndex: nat, n: nat)
    requires n <= |edges|
    ensures |SkeletonLines(edges, kps, poseIndex, n)| <= n
    ensures forall p | p in SkeletonLines(edges, kps, poseIndex, n) :: IsEdgeLineOf(edges, kps, poseIndex, p) && p.edgeIndex < n
    ensures forall c: nat | c < n && EdgeDrawn(kps, edges[c]) :: EdgeLine(edges, kps, poseIndex, c) in SkeletonLines(edges, kps, poseIndex, n)
    ensures forall a, b | 0 <= a < b < |SkeletonLines(edges, kps, poseIndex, n)| ::
      LinePrecedes(SkeletonLines(edges, kps, poseIndex, n)[a], SkeletonLines(edges, kps, poseIndex, n)[b])
  {
    if n > 0 {
      var prev := SkeletonLines(edges, kps, poseIndex, n - 1);
      SkeletonLinesShape(edges, kps, poseIndex, n - 1);
      assert forall a | 0 <= a < |prev| :: prev[a] in prev;
    }
  }

  /** One keypoint's marks: none at or below the threshold, otherwise its
      circle and, only when scores are shown, its label. */
  lemma KeypointMarksShape(kp: Keypoint, i: nat, poseIndex: nat, showConfidence: bool)
    ensures |KeypointMarks(kp, i, poseIndex, showConfidence)| <= 2
    ensures forall p | p in KeypointMarks(kp, i, poseIndex, showConfidence) ::
      kp.score > DrawThreshold && (p == KeypointCircle(kp, i, poseIndex) || (showConfidence && p == KeypointScoreLabel(kp, i, poseIndex)))
    ensures kp.score > DrawThreshold ==> KeypointCircle(kp, i, poseIndex) in KeypointMarks(kp, i, poseIndex, showConfidence)
    ensures kp.score > DrawThreshold && showConfidence ==> KeypointScoreLabel(kp, i, poseIndex) in KeypointMarks(kp, i, poseIndex, showConfidence)
    ensures CircleCount(KeypointMarks(kp, i, poseIndex, showConfidence)) == if kp.score > DrawThreshold then 1 else 0
  {
    var marks := KeypointMarks(kp, i, poseIndex, showConfidence);
    if kp.score > DrawThreshold {
      var circle := KeypointCircle(kp, i, poseIndex);
      if showConfidence {
        var tag := KeypointScoreLabel(kp, i, poseIndex);
        assert marks == [circle, tag] && marks[1..] == [tag] && [tag][1..] == [];
        assert CircleCount([tag]) == 0;
      } else {
        assert marks == [circle] && marks[1..] == [];
      }
    }
  }

  /** p is a mark of one of the first n keypoints: its circle, or its label
      when scores are shown. */
  predicate IsKeypointMarkOf(kps: seq<Keypoint>, poseIndex: nat, showConfidence: bool, n: nat, p: Primitive)
  {
    (IsCircleOf(kps, poseIndex, p) || (showConfidence && IsScoreLabelOf(kps, poseIndex, p))) && p.keypointIndex < n
  }

  /** Mark x comes before mark y: for an earlier keypoint, or as the
      circle before the label of the same keypoint. */
  predicate MarkPrecedes(x: Primitive, y: Primitive)
  {
    (x.Circle? || x.ScoreLabel?) && (y.Circle? || y.ScoreLabel?) &&
    (x.keypointIndex < y.keypointIndex || (x.keypointIndex == y.keypointIndex && x.Circle? && y.ScoreLabel?))
  }

  /** The keypoint part, soundly: marks in keypoint order with a circle
      before its label, so at most one circle and one label per keypoint
      considered; each mark belonging to a keypoint above the threshold,
      labels only when scores are shown. */
  lemma {:induction false} KeypointElementsSound(kps: seq<Keypoint>, poseIndex: nat, showConfidence: bool, n: nat)
    requires n <= |kps|
    ensures |KeypointElements(kps, poseIndex, showConfidence, n)| <= 2 * n
    ensures forall p | p in KeypointElements(kps, poseIndex, showConfidence, n) :: IsKeypointMarkOf(kps, poseIndex, showConfidence, n, p)
    ensures forall a, b | 0 <= a < b < |KeypointElements(kps, poseIndex, showConfidence, n)| ::
      MarkPrecedes(KeypointElements(kps, poseIndex, showConfidence, n)[a], KeypointElements(kps, poseIndex, showConfidence, n)[b])
  {
    if n > 0 {
      var kp := kps[n - 1];
      var prev := KeypointElements(kps, poseIndex, showConfidence, n - 1);
      var marks := KeypointMarks(kp, n - 1, poseIndex, showConfidence);
      KeypointElementsSound(kps, poseIndex, showConfidence, n - 1);
      KeypointMarksShape(kp, n - 1, poseIndex, showConfidence);
      assert KeypointElements(kps, poseIndex, showConfidence, n) == prev + marks;
      forall p | p in prev
        ensures IsKeypointMarkOf(kps, poseIndex, showConfidence, n, p)
      {
        assert IsKeypointMarkOf(kps, poseIndex, showConfidence, n - 1, p);
      }
      forall p | p in marks
        ensures IsKeypointMarkOf(kps, poseIndex, showConfidence, n, p)
      {
        if p == KeypointCircle(kp, n - 1, poseIndex) {
          assert IsCircleOf(kps, poseIndex, p);
        } else {
          assert IsScoreLabelOf(kps, poseIndex, p);
        }
      }
      var all := prev + marks;
      forall a, b | 0 <= a < b < |all|
        ensures MarkPrecedes(all[a], all[b])
      {
        if b < |prev| {
          assert all[a] == prev[a] && all[b] == prev[b];
        } else if a < |prev| {
          assert all[a] == prev[a] && prev[a] in prev;
          assert all[b] == marks[b - |prev|];
        } else {
          assert marks[0] == KeypointCircle(kp, n - 1, poseIndex);
          assert all[b] == marks[1] && all[a] == marks[0];
        }
      }
    }
  }

  /** The keypoint part, completely: every keypoint above the threshold
      among the first n has its circle, and its label when scores are shown. */
  lemma {:induction false} KeypointElementsComplete(kps: seq<Keypoint>, poseIndex: nat, showConfidence: bool, n: nat)
    requires n <= |kps|
    ensures forall i | 0 <= i < n && kps[i].score > DrawThreshold ::
      KeypointCircle(kps[i], i, poseIndex) in KeypointElements(kps, poseIndex, showConfidence, n) &&
      (showConfidence ==> KeypointScoreLabel(kps[i], i, poseIndex) in KeypointElements(kps, poseIndex, showConfidence, n))
  {
    if n > 0 {
      var prev := KeypointElements(kps, poseIndex, showConfidence, n - 1);
      var marks := KeypointMarks(kps[n - 1], n - 1, poseIndex, showConfidence);
      KeypointElementsComplete(kps, poseIndex, showConfidence, n - 1);
      KeypointMarksShape(kps[n - 1], n - 1, poseIndex, showConfidence);
      assert KeypointElements(kps, poseIndex, showConfidence, n) == prev + marks;
    }
  }

  /** The number of circles in a list of primitives. */
  function CircleCount(ps: seq<Primitive>): nat
  {
    if ps == [] then 0 else (if ps[0].Circle? then 1 else 0) + CircleCount(ps[1..])
  }

  lemma {:induction false} CircleCountAppend(a: seq<Primitive>, b: seq<Primitive>)
    ensures CircleCount(a + b) == CircleCount(a) + CircleCount(b)
  {
    if a == [] {
      assert a + b == b;
    } else {
      assert (a + b)[0] == a[0] && (a + b)[1..] == a[1..] + b;
      CircleCountAppend(a[1..], b);
    }
  }

  /** A list without circles counts none. */
  lemma {:induction false} CircleCountNone(ps: seq<Primitive>)
    requires forall p | p in ps :: !p.Circle?
    ensures CircleCount(ps) == 0
  {
    if ps != [] {
      assert ps[0] in ps;
      assert forall p | p in ps[1..] :: p in ps;
      CircleCountNone(ps[1..]);
    }
  }

  /** The number of the first n keypoints that score above the threshold. */
  function DrawableCount(kps: seq<Keypoint>, n: nat): nat
    requires n <= |kps|
  {
    if n == 0 then 0 else DrawableCount(kps, n - 1) + (if kps[n - 1].score > DrawThreshold then 1 else 0)
  }

  /** One circle per keypoint above the threshold, and no more. */
  lemma {:induction false} OneCirclePerDrawableKeypoint(kps: seq<Keypoint>, poseIndex: nat, showConfidence: bool, n: nat)
    requires n <= |kps|
    ensures CircleCount(KeypointElements(kps, poseIndex, showConfidence, n)) == DrawableCount(kps, n)
  {
    if n > 0 {
      OneCirclePerDrawableKeypoint(kps, poseIndex, showConfidence, n - 1);
      KeypointMarksShape(kps[n - 1], n - 1, poseIndex, showConfidence);
      CircleCountAppend(KeypointElements(kps, poseIndex, showConfidence, n - 1), KeypointMarks(kps[n - 1], n - 1, poseIndex, showConfidence));
    }
  }

  /** Every primitive drawn for a pose is a drawn edge's line, a shown
      keypoint's circle, a shown score label, or the confidence label; and
      every drawn edge and shown keypoint is there. */
  lemma PoseElementsMembers(pose: Pose, poseIndex: nat, opts: CanvasOptions)
    ensures forall p | p in PoseElements(pose, poseIndex, opts) ::
      IsEdgeLineOf(Connections(), pose.keypoints, poseIndex, p) ||
      (opts.showKeypoints && IsCircleOf(pose.keypoints, poseIndex, p)) ||
      (opts.showKeypoints && opts.showConfidence && IsScoreLabelOf(pose.keypoints, poseIndex, p)) ||
      p in OverallLabel(pose.keypoints, poseIndex)
    ensures forall c: nat | c < |Connections()| && EdgeDrawn(pose.keypoints, Connections()[c]) ::
      EdgeLine(Connections(), pose.keypoints, poseIndex, c) in PoseElements(pose, poseIndex, opts)
    ensures forall i | 0 <= i < |pose.keypoints| && pose.keypoints[i].score > DrawThreshold && opts.showKeypoints ::
      KeypointCircle(pose.keypoints[i], i, poseIndex) in PoseElements(pose, poseIndex, opts) &&
      (opts.showConfidence ==> KeypointScoreLabel(pose.keypoints[i], i, poseIndex) in PoseElements(pose, poseIndex, opts))
  {
    SkeletonLinesShape(Connections(), pose.keypoints, poseIndex, |Connections()|);
    KeypointElementsSound(pose.keypoints, poseIndex, opts.showConfidence, |pose.keypoints|);
    KeypointElementsComplete(pose.keypoints, poseIndex, opts.showConfidence, |pose.keypoints|);
  }

  /** A line for edge c of the table is drawn if and only if both its
      keypoints exist and score above 0.4, and it joins those keypoints. */
  lemma LineDrawnIffBothEndsConfident(pose: Pose, poseIndex: nat, opts: CanvasOptions, c: nat)
    requires c < |Connections()|
    ensures (exists p | p in PoseElements(pose, poseIndex, opts) :: p.Line? && p.edgeIndex == c) <==> EdgeDrawn(pose.keypoints, Connections()[c])
    ensures forall p | p in PoseElements(pose, poseIndex, opts) && p.Line? && p.edgeIndex == c ::
      var e := Connections()[c];
      p.x1 == pose.keypoints[e.0].x && p.y1 == pose.keypoints[e.0].y &&
      p.x2 == pose.keypoints[e.1].x && p.y2 == pose.keypoints[e.1].y
  {
    PoseElementsMembers(pose, poseIndex, opts);
    if EdgeDrawn(pose.keypoints, Connections()[c]) {
      assert EdgeLine(Connections(), pose.keypoints, poseIndex, c) in PoseElements(pose, poseIndex, opts);
    }
  }

  /** No circle and no score label when keypoints are hidden, and no score
      label when scores are hidden. */
  lemma HiddenMarksAreNotDrawn(pose: Pose, poseIndex: nat, opts: CanvasOptions)
    ensures !opts.showKeypoints ==> forall p | p in PoseElements(pose, poseIndex, opts) :: !p.Circle? && !p.ScoreLabel?
    ensures !opts.showConfidence ==> forall p | p in PoseElements(pose, poseIndex, opts) :: !p.ScoreLabel?
  {
    PoseElementsMembers(pose, poseIndex, opts);
  }

  /** With keypoints shown, exactly one circle per keypoint above 0.4. */
  lemma CircleCountMatchesDrawable(pose: Pose, poseIndex: nat, opts: CanvasOptions)
    requires opts.showKeypoints
    ensures CircleCount(PoseElements(pose, poseIndex, opts)) == DrawableCount(pose.keypoints, |pose.keypoints|)
  {
    var kps := pose.keypoints;
    var lines := SkeletonLines(Connections(), kps, poseIndex, |Connections()|);
    var marks := KeypointElements(kps, poseIndex, opts.showConfidence, |kps|);
    var tail := OverallLabel(kps, poseIndex);
    assert PoseElements(pose, poseIndex, opts) == lines + marks + tail;
    SkeletonLinesShape(Connections(), kps, poseIndex, |Connections()|);
    OneCirclePerDrawableKeypoint(kps, poseIndex, opts.showConfidence, |kps|);
    CircleCountAppend(lines, marks);
    CircleCountAppend(lines + marks, tail);
    CircleCountNone(lines);
    CircleCountNone(tail);
  }

  /** Each circle sits at its keypoint, is coloured by position, and has
      radius and stroke 8 and 3 above 0.7, 6 and 2 otherwise; each keypoint
      above 0.4 has its circle when keypoints are shown. */
  lemma CircleRules(pose: Pose, poseIndex: nat, opts: CanvasOptions)
    ensures forall i | 0 <= i < |pose.keypoints| && pose.keypoints[i].score > DrawThreshold && opts.showKeypoints ::
      KeypointCircle(pose.keypoints[i], i, poseIndex) in PoseElements(pose, poseIndex, opts)
    ensures forall p | p in PoseElements(pose, poseIndex, opts) && p.Circle? ::
      opts.showKeypoints && p.keypointIndex < |pose.keypoints| &&
      var kp := pose.keypoints[p.keypointIndex];
      kp.score > DrawThreshold && p.cx == kp.x && p.cy == kp.y && p.fill == PointColour(p.keypointIndex) &&
      (if kp.score > HighConfidence then p.radius == 8 && p.strokeWidth == 3 else p.radius == 6 && p.strokeWidth == 2)
  {
    PoseElementsMembers(pose, poseIndex, opts);
  }

  /** A score label appears only with its keypoint's circle and only when
      keypoints and scores are shown; it sits at (x + 8, y - 8) and reads the
      rounded percentage. */
  lemma ScoreLabelRules(pose: Pose, poseIndex: nat, opts: CanvasOptions)
    ensures forall p | p in PoseElements(pose, poseIndex, opts) && p.ScoreLabel? ::
      opts.showKeypoints && opts.showConfidence && p.keypointIndex < |pose.keypoints| &&
      var kp := pose.keypoints[p.keypointIndex];
      KeypointCircle(kp, p.keypointIndex, poseIndex) in PoseElements(pose, poseIndex, opts) &&
      p.x == kp.x + 8.0 && p.y == kp.y - 8.0 && p.percent == Round(kp.score * 100.0)
  {
    PoseElementsMembers(pose, poseIndex, opts);
  }

  /** The confidence label is drawn if and only if the mean score exceeds
      0.5, so never for a pose without keypoints; it sits at (20, 40), reads
      the rounded mean percentage, and is green exactly when the mean
      exceeds 0.7 (orange otherwise). */
  lemma ConfidenceLabelRules(pose: Pose, poseIndex: nat, opts: CanvasOptions)
    ensures (exists p | p in PoseElements(pose, poseIndex, opts) :: p.ConfidenceLabel?) <==>
      (MeanScore(pose.keypoints).Some? && MeanScore(pose.keypoints).value > LabelThreshold)
    ensures forall p | p in PoseElements(pose, poseIndex, opts) && p.ConfidenceLabel? ::
      var mean := MeanScore(pose.keypoints).value;
      p.x == 20.0 && p.y == 40.0 && p.percent == Round(mean * 100.0) &&
      (p.fill == Green <==> mean > HighConfidence) && (p.fill == Orange <==> mean <= HighConfidence)
  {
    PoseElementsMembers(pose, poseIndex, opts);
    var tail := OverallLabel(pose.keypoints, poseIndex);
    if tail != [] {
      assert tail[0] in PoseElements(pose, poseIndex, opts);
    }
  }

  /** With the component's default toggles a pose shows one circle per
      keypoint above 0.4 and no score label. */
  lemma DefaultOptionsShowCirclesOnly(pose: Pose, poseIndex: nat)
    ensures CircleCount(PoseElements(pose, poseIndex, DefaultOptions)) == DrawableCount(pose.keypoints, |pose.keypoints|)
    ensures forall p | p in PoseElements(pose, poseIndex, DefaultOptions) :: !p.ScoreLabel?
  {
    CircleCountMatchesDrawable(pose, poseIndex, DefaultOptions);
    HiddenMarksAreNotDrawn(pose, poseIndex, DefaultOptions);
  }

  /** Per pose, at most 16 lines, two marks per keypoint and one label. */
  lemma PrimitiveBudget(pose: Pose, poseIndex: nat, opts: CanvasOptions)
    ensures |PoseElements(pose, poseIndex, opts)| <= 16 + 2 * |pose.keypoints| + 1
  {
    SkeletonLinesShape(Connections(), pose.keypoints, poseIndex, |Connections()|);
    KeypointElementsSound(pose.keypoints, poseIndex, opts.showConfidence, |pose.keypoints|);
  }

  /** A pose without keypoints draws nothing: no lines, no marks, and the
      NaN mean shows no label. */
  lemma EmptyPoseDrawsNothing(pose: Pose, poseIndex: nat, opts: CanvasOptions)
    requires pose.keypoints == []
    ensures PoseElements(pose, poseIndex, opts) == []
  {
    NoKeypointsNoLines(Connections(), poseIndex, |Connections()|);
  }

  /** With no keypoints, no edge of any table is drawn. */
  lemma {:induction false} NoKeypointsNoLines(edges: seq<Edge>, poseIndex: nat, n: nat)
    requires n <= |edges|
    ensures SkeletonLines(edges, [], poseIndex, n) == []
  {
    if n > 0 {
      NoKeypointsNoLines(edges, poseIndex, n - 1);
    }
  }

  /** Two keypoints scoring 0.5 and 0.3 are not joined; 0.5 and 0.5 are. */
  lemma EdgeThresholdExample(a: Keypoint, b: Keypoint, opts: CanvasOptions)
    requires a.score == 0.5
    ensures b.score == 0.3 ==> !EdgeDrawn([a, b], Connections()[0])
    ensures b.score == 0.5 ==> EdgeLine(Connections(), [a, b], 0, 0) in PoseElements(Pose([a, b], 0.0), 0, opts)
  {
    if b.score == 0.5 {
      LineDrawnIffBothEndsConfident(Pose([a, b], 0.0), 0, opts, 0);
      SkeletonLinesShape(Connections(), [a, b], 0, |Connections()|);
    }
  }
}
