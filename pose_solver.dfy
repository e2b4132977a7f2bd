/**
 * The pure half of the animation player: converting sensor points into model
 * space, the unsigned angle primitive, the per-joint signed angles, and the
 * bone-local pose that the driven joints produce from the bind pose.
 */
module PoseSolver {
  import opened Geometry
  import opened Kinect

  /** The scale factor of the coordinate conversion. */
  const Scale: real := 1.0

  /** Maps a sensor point into the model's coordinate space. */
  function ConvertRealWorldPoint(position: SkeletonPoint): (r: Vector3)
    ensures r == Vector3(position.x, position.y + 1.0, position.z - 1.0)
  {
    Vector3(position.x * Scale, (position.y + 1.0) * Scale, (position.z - 1.0) * Scale)
  }

  /** The conversion is a translation: it keeps the difference of any two points. */
  lemma ConvertKeepsDifferences(a: SkeletonPoint, b: SkeletonPoint)
    ensures Minus(ConvertRealWorldPoint(b), ConvertRealWorldPoint(a)) == Vector3(b.x - a.x, b.y - a.y, b.z - a.z)
  {
  }

  /** The converted position of every joint of `s`. */
  function Positions(s: Skeleton): JointType -> Vector3 {
    j => ConvertRealWorldPoint(s.joints(j))
  }

  /** The sensor positions of `s`, taken as model vectors without conversion. */
  function RawPositions(s: Skeleton): JointType -> Vector3 {
    j => Vector3(s.joints(j).x, s.joints(j).y, s.joints(j).z)
  }

  /**
   * The unsigned angle primitive: `acos` of the dot product of its two
   * arguments, which are not normalised first. The arc cosine is a parameter.
   */
  function AngleBetweenTwoVectors(acos: real -> real, a: Vector3, b: Vector3): real {
    acos(Dot(a, b))
  }

  /** The segment from `from` to `to` projected onto the side (X, Y) plane. */
  function SidePlane(from: Vector3, to: Vector3): Vector3 {
    Vector3(to.x - from.x, to.y - from.y, 0.0)
  }

  /** The segment from `from` to `to` projected onto the front (Y, Z) plane. */
  function FrontPlane(from: Vector3, to: Vector3): Vector3 {
    Vector3(0.0, to.y - from.y, to.z - from.z)
  }

  /**
   * A signed angle as a driving block computes it: the unsigned angle and
   * whether the block multiplies it by -1.
   */
  datatype SignedAngle = SignedAngle(unsigned: real, negated: bool) {
    function Value(): real {
      if negated then -unsigned else unsigned
    }
  }

  /** The joints of the arm blocks, left arm first, each from the shoulder down. */
  const ArmJoints: seq<JointType> := [ShoulderLeft, ElbowLeft, WristLeft, ShoulderRight, ElbowRight, WristRight]

  /** The joints of the leg blocks, left leg first, each from the hip down. */
  const LegJoints: seq<JointType> := [HipLeft, KneeLeft, HipRight, KneeRight]

  /** The joints of the torso blocks: the spine, then the head. */
  const TorsoJoints: seq<JointType> := [Spine, Head]

  /** The joints that drive a bone, in the order their blocks run. */
  const DrivenJoints: seq<JointType> := ArmJoints + LegJoints + TorsoJoints

  /**
   * The angle of the Y rotation that the block of joint `j` applies (a joint
   * without a block gets an unused placeholder).
   */
  function SideRule(acos: real -> real, p: JointType -> Vector3, j: JointType): SignedAngle {
    match j
    case ShoulderLeft =>
      var v := SidePlane(p(ShoulderLeft), p(ElbowLeft));
      SignedAngle(AngleBetweenTwoVectors(acos, Plus(Down, Left), v), AngleBetweenTwoVectors(acos, Left, v) < AngleBetweenTwoVectors(acos, Down, v))
    case ElbowLeft =>
      SignedAngle(AngleBetweenTwoVectors(acos, SidePlane(p(ShoulderLeft), p(ElbowLeft)), SidePlane(p(ElbowLeft), p(WristLeft))), false)
    case WristLeft =>
      SignedAngle(AngleBetweenTwoVectors(acos, SidePlane(p(ElbowLeft), p(WristLeft)), SidePlane(p(WristLeft), p(HandLeft))), false)
    case ShoulderRight =>
      var v := SidePlane(p(ShoulderRight), p(ElbowRight));
      SignedAngle(AngleBetweenTwoVectors(acos, Plus(Down, Right), v), AngleBetweenTwoVectors(acos, Right, v) > AngleBetweenTwoVectors(acos, Down, v))
    case ElbowRight =>
      SignedAngle(AngleBetweenTwoVectors(acos, SidePlane(p(ShoulderRight), p(ElbowRight)), SidePlane(p(ElbowRight), p(WristRight))), true)
    case WristRight =>
      SignedAngle(AngleBetweenTwoVectors(acos, SidePlane(p(ElbowRight), p(WristRight)), SidePlane(p(WristRight), p(HandRight))), false)
    case HipLeft =>
      SignedAngle(AngleBetweenTwoVectors(acos, Down, SidePlane(p(HipLeft), p(KneeLeft))), p(KneeLeft).x > p(HipLeft).x)
    case KneeLeft =>
      SignedAngle(AngleBetweenTwoVectors(acos, SidePlane(p(HipLeft), p(KneeLeft)), SidePlane(p(KneeLeft), p(AnkleLeft))), p(AnkleLeft).x > p(KneeLeft).x)
    case HipRight =>
      SignedAngle(AngleBetweenTwoVectors(acos, Down, SidePlane(p(HipRight), p(KneeRight))), p(KneeRight).x > p(HipRight).x)
    case KneeRight =>
      SignedAngle(AngleBetweenTwoVectors(acos, SidePlane(p(HipRight), p(KneeRight)), SidePlane(p(KneeRight), p(AnkleRight))), p(AnkleRight).x > p(KneeRight).x)
    case Spine =>
      SignedAngle(AngleBetweenTwoVectors(acos, Up, SidePlane(p(Spine), p(ShoulderCenter))), p(Spine).x > p(ShoulderCenter).x)
    case Head =>
      SignedAngle(AngleBetweenTwoVectors(acos, Up, SidePlane(p(ShoulderCenter), p(Head))), p(ShoulderCenter).x > p(Head).x)
    case _ => SignedAngle(0.0, false)
  }

  /**
   * The angle of the Z rotation that the block of joint `j` applies (a joint
   * without a block gets an unused placeholder).
   */
  function FrontRule(acos: real -> real, p: JointType -> Vector3, j: JointType): SignedAngle {
    match j
    case ShoulderLeft =>
      SignedAngle(AngleBetweenTwoVectors(acos, Down, FrontPlane(p(ShoulderLeft), p(ElbowLeft))), p(ElbowLeft).z < p(ShoulderLeft).z)
    case ElbowLeft =>
      SignedAngle(AngleBetweenTwoVectors(acos, FrontPlane(p(ShoulderLeft), p(ElbowLeft)), FrontPlane(p(ElbowLeft), p(WristLeft))), true)
    case WristLeft =>
      SignedAngle(AngleBetweenTwoVectors(acos, FrontPlane(p(ElbowLeft), p(WristLeft)), FrontPlane(p(WristLeft), p(HandLeft))), true)
    case ShoulderRight =>
      SignedAngle(AngleBetweenTwoVectors(acos, Down, FrontPlane(p(ShoulderRight), p(ElbowRight))), p(ElbowRight).z < p(ShoulderRight).z)
    case ElbowRight =>
      SignedAngle(AngleBetweenTwoVectors(acos, FrontPlane(p(ShoulderRight), p(ElbowRight)), FrontPlane(p(ElbowRight), p(WristRight))), true)
    case WristRight =>
      SignedAngle(AngleBetweenTwoVectors(acos, FrontPlane(p(ElbowRight), p(WristRight)), FrontPlane(p(WristRight), p(HandRight))), true)
    case HipLeft =>
      SignedAngle(AngleBetweenTwoVectors(acos, Down, FrontPlane(p(HipLeft), p(KneeLeft))), p(KneeLeft).z > p(HipLeft).z)
    case KneeLeft =>
      SignedAngle(AngleBetweenTwoVectors(acos, FrontPlane(p(HipLeft), p(KneeLeft)), FrontPlane(p(KneeLeft), p(AnkleLeft))), p(AnkleLeft).z > p(KneeLeft).z)
    case HipRight =>
      SignedAngle(AngleBetweenTwoVectors(acos, Down, FrontPlane(p(HipRight), p(KneeRight))), p(KneeRight).z > p(HipRight).z)
    case KneeRight =>
      SignedAngle(AngleBetweenTwoVectors(acos, FrontPlane(p(HipRight), p(KneeRight)), FrontPlane(p(KneeRight), p(AnkleRight))), p(AnkleRight).z > p(KneeRight).z)
    case Spine =>
      SignedAngle(AngleBetweenTwoVectors(acos, Up, FrontPlane(p(Spine), p(ShoulderCenter))), p(ShoulderCenter).z > p(Spine).z)
    case Head =>
      SignedAngle(AngleBetweenTwoVectors(acos, Up, FrontPlane(p(ShoulderCenter), p(Head))), p(Head).z > p(ShoulderCenter).z)
    case _ => SignedAngle(0.0, false)
  }

  /** The projected segment between two joints is the same before and after conversion. */
  lemma SegmentIgnoresOffset(s: Skeleton, a: JointType, b: JointType)
    ensures SidePlane(Positions(s)(a), Positions(s)(b)) == SidePlane(RawPositions(s)(a), RawPositions(s)(b))
    ensures FrontPlane(Positions(s)(a), Positions(s)(b)) == FrontPlane(RawPositions(s)(a), RawPositions(s)(b))
  {
    ConvertKeepsDifferences(s.joints(a), s.joints(b));
  }

  /**
   * The offset the conversion adds cancels out: every driving block computes
   * the same signed angles from the converted positions as from the raw ones.
   */
  lemma PoseIgnoresOffset(acos: real -> real, s: Skeleton, j: JointType)
    ensures SideRule(acos, Positions(s), j) == SideRule(acos, RawPositions(s), j)
    ensures FrontRule(acos, Positions(s), j) == FrontRule(acos, RawPositions(s), j)
  {
    match j
    case ShoulderLeft => SegmentIgnoresOffset(s, ShoulderLeft, ElbowLeft);
    case ElbowLeft =>
      SegmentIgnoresOffset(s, ShoulderLeft, ElbowLeft);
      SegmentIgnoresOffset(s, ElbowLeft, WristLeft);
    case WristLeft =>
      SegmentIgnoresOffset(s, ElbowLeft, WristLeft);
      SegmentIgnoresOffset(s, WristLeft, HandLeft);
    case ShoulderRight => SegmentIgnoresOffset(s, ShoulderRight, ElbowRight);
    case ElbowRight =>
      SegmentIgnoresOffset(s, ShoulderRight, ElbowRight);
      SegmentIgnoresOffset(s, ElbowRight, WristRight);
    case WristRight =>
      SegmentIgnoresOffset(s, ElbowRight, WristRight);
      SegmentIgnoresOffset(s, WristRight, HandRight);
    case HipLeft => SegmentIgnoresOffset(s, HipLeft, KneeLeft);
    case KneeLeft =>
      SegmentIgnoresOffset(s, HipLeft, KneeLeft);
      SegmentIgnoresOffset(s, KneeLeft, AnkleLeft);
    case HipRight => SegmentIgnoresOffset(s, HipRight, KneeRight);
    case KneeRight =>
      SegmentIgnoresOffset(s, HipRight, KneeRight);
      SegmentIgnoresOffset(s, KneeRight, AnkleRight);
    case Spine => SegmentIgnoresOffset(s, Spine, ShoulderCenter);
    case Head => SegmentIgnoresOffset(s, ShoulderCenter, Head);
    case _ =>
  }
}
