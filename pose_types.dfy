/** The records that flow from the pose detector to the overlay. */
module PoseTypes {

  datatype Option<T> = None | Some(value: T)

  /** A keypoint as the app stores it: preview coordinates, a confidence
      score and a landmark name. */
  datatype Keypoint = Keypoint(x: real, y: real, score: real, name: string)

  /** One detected person: its keypoints and an overall score. */
  datatype Pose = Pose(keypoints: seq<Keypoint>, score: real)

  /** A keypoint as the detector reports it, in output-tensor coordinates;
      its score and name may be missing. */
  datatype DetectedKeypoint = DetectedKeypoint(x: real, y: real, score: Option<real>, name: Option<string>)

  /** A pose as the detector reports it; its score may be missing. */
  datatype DetectedPose = DetectedPose(keypoints: seq<DetectedKeypoint>, score: Option<real>)
}
