/**
 * The bone-local pose that the driving blocks leave: each block pre-multiplies
 * a Y rotation and then a Z rotation onto the bone its joint is bound to.
 */
module BonePose {
  import opened Geometry
  import opened Kinect
  import opened JointBinding
  import opened PoseSolver

  /**
   * Every driven joint is bound, to a bone index below `n`: none of the
   * lookups the driving blocks make misses its key or leaves the bone array.
   */
  predicate DrivesSafely(m: JointMap, n: int) {
    forall j :: j in DrivenJoints ==> j in m && 0 <= m[j] < n
  }

  predicate AllDriven(js: seq<JointType>) {
    forall k :: 0 <= k < |js| ==> js[k] in DrivenJoints
  }

  predicate NoDuplicates(js: seq<JointType>) {
    forall a, b :: 0 <= a < b < |js| ==> js[a] != js[b]
  }

  /** Every joint of `js` is bound, to a bone index below `n`. */
  predicate Bound(m: JointMap, js: seq<JointType>, n: int) {
    forall k :: 0 <= k < |js| ==> js[k] in m && 0 <= m[js[k]] < n
  }

  /** The lookups of the driving blocks are safe for every sub-sequence of them. */
  lemma DrivenBound(m: JointMap, js: seq<JointType>, n: int)
    requires DrivesSafely(m, n) && AllDriven(js)
    ensures Bound(m, js, n)
  {
  }

  /** `bones` with `rotation` pre-multiplied onto the bone at `index`. */
  function PreMultiplied(bones: seq<Matrix>, index: int, rotation: Matrix): (r: seq<Matrix>)
    requires 0 <= index < |bones|
    ensures |r| == |bones|
  {
    bones[index := Mul(rotation, bones[index])]
  }

  /**
   * Pre-multiplying `y` and then `z` onto one bone pre-multiplies their
   * product `z * y`, and leaves every other bone alone.
   */
  lemma TwoPreMultiplications(bones: seq<Matrix>, index: int, y: Matrix, z: Matrix)
    requires 0 <= index < |bones|
    ensures PreMultiplied(PreMultiplied(bones, index, y), index, z) == PreMultiplied(bones, index, Mul(z, y))
    ensures forall i :: 0 <= i < |bones| && i != index ==> PreMultiplied(bones, index, Mul(z, y))[i] == bones[i]
  {
    MulAssociates(z, y, bones[index]);
  }

  /** The Z rotation of the block of `j` applied after its Y rotation. */
  function JointRotation(acos: real -> real, p: JointType -> Vector3, j: JointType): Matrix {
    Mul(CreateRotationZ(FrontRule(acos, p, j).Value()), CreateRotationY(SideRule(acos, p, j).Value()))
  }

  /** The rotation each block applies, for the joint positions `p`. */
  function Rotations(acos: real -> real, p: JointType -> Vector3): JointType -> Matrix {
    j => JointRotation(acos, p, j)
  }

  /**
   * The bones after the blocks of `js` have run, in order, the block of a
   * joint pre-multiplying its rotation `rot(j)` onto the bone `m[j]`.
   */
  function Pose(bones: seq<Matrix>, m: JointMap, rot: JointType -> Matrix, js: seq<JointType>): (r: seq<Matrix>)
    requires Bound(m, js, |bones|)
    ensures |r| == |bones|
    decreases |js|
  {
    if js == [] then bones
    else Pose(PreMultiplied(bones, m[js[0]], rot(js[0])), m, rot, js[1..])
  }

  /**
   * The product of the rotations that the blocks of `js` leave on bone `i`,
   * the latest leftmost.
   */
  function Compound(m: JointMap, rot: JointType -> Matrix, js: seq<JointType>, i: int): Matrix
    requires forall k :: 0 <= k < |js| ==> js[k] in m
  {
    if js == [] then Identity
    else Mul(Compound(m, rot, js[1..], i), if m[js[0]] == i then rot(js[0]) else Identity)
  }

  /** The product of the rotations of all the blocks of `js`, the latest leftmost. */
  function AllRotations(rot: JointType -> Matrix, js: seq<JointType>): Matrix {
    if js == [] then Identity
    else Mul(AllRotations(rot, js[1..]), rot(js[0]))
  }

  /** Each bone ends up as its own compound rotation times its starting value. */
  lemma {:induction false} PoseAt(bones: seq<Matrix>, m: JointMap, rot: JointType -> Matrix, js: seq<JointType>, i: int)
    requires Bound(m, js, |bones|) && 0 <= i < |bones|
    ensures Pose(bones, m, rot, js)[i] == Mul(Compound(m, rot, js, i), bones[i])
    decreases |js|
  {
    if js != [] {
      var next := PreMultiplied(bones, m[js[0]], rot(js[0]));
      assert Bound(m, js[1..], |next|) by {
        forall k | 0 <= k < |js[1..]| ensures js[1..][k] in m && 0 <= m[js[1..][k]] < |next| {
          assert js[1..][k] == js[k + 1];
        }
      }
      PoseAt(next, m, rot, js[1..], i);
      var own := if m[js[0]] == i then rot(js[0]) else Identity;
      assert next[i] == Mul(own, bones[i]);
      var c := Compound(m, rot, js[1..], i);
      MulAssociates(c, own, bones[i]);
    }
  }

  /** A bone that no joint of `js` is bound to gets no rotation. */
  lemma {:induction false} CompoundUnbound(m: JointMap, rot: JointType -> Matrix, js: seq<JointType>, i: int)
    requires forall k :: 0 <= k < |js| ==> js[k] in m
    requires forall k :: 0 <= k < |js| ==> m[js[k]] != i
    ensures Compound(m, rot, js, i) == Identity
  {
    if js != [] {
      CompoundUnbound(m, rot, js[1..], i);
    }
  }

  /**
   * The bone of a joint that occurs once in `js`, and whose bone no other
   * joint of `js` shares, gets exactly that joint's rotation.
   */
  lemma {:induction false} CompoundSingle(m: JointMap, rot: JointType -> Matrix, js: seq<JointType>, j: JointType)
    requires forall k :: 0 <= k < |js| ==> js[k] in m
    requires NoDuplicates(js) && j in js && j in m
    requires forall k :: 0 <= k < |js| && js[k] != j ==> m[js[k]] != m[j]
    ensures Compound(m, rot, js, m[j]) == rot(j)
  {
    var rest := js[1..];
    if js[0] == j {
      forall k | 0 <= k < |rest| ensures m[rest[k]] != m[j] {
        assert rest[k] == js[k + 1] != js[0];
      }
      CompoundUnbound(m, rot, rest, m[j]);
    } else {
      assert j in rest by {
        var k :| 0 <= k < |js| && js[k] == j;
        assert rest[k - 1] == j;
      }
      CompoundSingle(m, rot, rest, j);
    }
  }

  /** A bone that every joint of `js` is bound to gets all their rotations. */
  lemma {:induction false} CompoundAllBound(m: JointMap, rot: JointType -> Matrix, js: seq<JointType>, i: int)
    requires forall k :: 0 <= k < |js| ==> js[k] in m && m[js[k]] == i
    ensures Compound(m, rot, js, i) == AllRotations(rot, js)
  {
    if js != [] {
      CompoundAllBound(m, rot, js[1..], i);
    }
  }

  /** Running one more block pre-multiplies its rotation onto the pose so far. */
  lemma {:induction false} PoseSnoc(bones: seq<Matrix>, m: JointMap, rot: JointType -> Matrix, js: seq<JointType>, j: JointType)
    requires Bound(m, js, |bones|) && j in m && 0 <= m[j] < |bones|
    ensures Bound(m, js + [j], |bones|)
    ensures Pose(bones, m, rot, js + [j]) == PreMultiplied(Pose(bones, m, rot, js), m[j], rot(j))
    decreases |js|
  {
    BoundSnoc(m, js, j, |bones|);
    if js == [] {
      assert [] + [j] == [j];
    } else {
      var next := PreMultiplied(bones, m[js[0]], rot(js[0]));
      assert (js + [j])[1..] == js[1..] + [j];
      assert Bound(m, js[1..], |next|) by {
        forall k | 0 <= k < |js[1..]| ensures js[1..][k] in m && 0 <= m[js[1..][k]] < |next| {
          assert js[1..][k] == js[k + 1];
        }
      }
      PoseSnoc(next, m, rot, js[1..], j);
    }
  }

  lemma BoundSnoc(m: JointMap, js: seq<JointType>, j: JointType, n: int)
    requires Bound(m, js, n) && j in m && 0 <= m[j] < n
    ensures Bound(m, js + [j], n)
  {
    forall k | 0 <= k < |js + [j]| ensures (js + [j])[k] in m && 0 <= m[(js + [j])[k]] < n {
      if k < |js| {
        assert (js + [j])[k] == js[k];
      }
    }
  }

  /** The blocks of `js` leave a bone that none of their joints is bound to at its starting value. */
  lemma PoseUnbound(bones: seq<Matrix>, m: JointMap, rot: JointType -> Matrix, js: seq<JointType>, i: int)
    requires Bound(m, js, |bones|) && 0 <= i < |bones|
    requires forall k :: 0 <= k < |js| ==> m[js[k]] != i
    ensures Pose(bones, m, rot, js)[i] == bones[i]
  {
    PoseAt(bones, m, rot, js, i);
    CompoundUnbound(m, rot, js, i);
    MulIdentity(bones[i]);
  }

  /**
   * The bone of a joint that occurs once in `js`, and that no other joint of
   * `js` shares, ends up as that joint's rotation times its starting value.
   */
  lemma PoseSingle(bones: seq<Matrix>, m: JointMap, rot: JointType -> Matrix, js: seq<JointType>, j: JointType)
    requires Bound(m, js, |bones|) && NoDuplicates(js) && j in js
    requires forall k :: 0 <= k < |js| && js[k] != j ==> m[js[k]] != m[j]
    ensures j in m && 0 <= m[j] < |bones|
    ensures Pose(bones, m, rot, js)[m[j]] == Mul(rot(j), bones[m[j]])
  {
    var k :| 0 <= k < |js| && js[k] == j;
    PoseAt(bones, m, rot, js, m[j]);
    CompoundSingle(m, rot, js, j);
  }

  /** The bone that every joint of `js` is bound to ends up with all their rotations. */
  lemma PoseAllBound(bones: seq<Matrix>, m: JointMap, rot: JointType -> Matrix, js: seq<JointType>, i: int)
    requires Bound(m, js, |bones|) && 0 <= i < |bones|
    requires forall k :: 0 <= k < |js| ==> m[js[k]] == i
    ensures Pose(bones, m, rot, js)[i] == Mul(AllRotations(rot, js), bones[i])
  {
    PoseAt(bones, m, rot, js, i);
    CompoundAllBound(m, rot, js, i);
  }

  /** Twelve joints drive bones, each of them once. */
  lemma DrivenJointsOnce()
    ensures |DrivenJoints| == 12 && NoDuplicates(DrivenJoints)
  {
  }

  /** The head's block runs last, after the blocks of eleven other joints. */
  lemma HeadLast()
    ensures DrivenJoints == DrivenJoints[..11] + [Head]
    ensures forall k :: 0 <= k < 11 ==> DrivenJoints[k] != Head
  {
  }

  /**
   * The bone-local pose that one pass of the driving blocks leaves: the bind
   * pose when there is no skeleton, and otherwise the bind pose with the
   * rotations of the twelve driven joints of the skeleton's positions.
   */
  function DrivenPose(bind: seq<Matrix>, m: JointMap, acos: real -> real, skeleton: Option<Skeleton>): (r: seq<Matrix>)
    requires skeleton.Some? ==> DrivesSafely(m, |bind|)
    ensures |r| == |bind|
  {
    match skeleton
    case None => bind
    case Some(s) =>
      DrivenBound(m, DrivenJoints, |bind|);
      Pose(bind, m, Rotations(acos, Positions(s)), DrivenJoints)
  }

  /**
   * A bone outside `driven`, a set that holds the bone of every bound driven
   * joint, keeps its bind pose.
   */
  lemma DrivenPoseUndriven(bind: seq<Matrix>, m: JointMap, acos: real -> real, skeleton: Option<Skeleton>, driven: set<int>, i: int)
    requires skeleton.Some? ==> DrivesSafely(m, |bind|)
    requires forall j :: j in DrivenJoints && j in m ==> m[j] in driven
    requires 0 <= i < |bind| && i !in driven
    ensures DrivenPose(bind, m, acos, skeleton)[i] == bind[i]
  {
    if skeleton.Some? {
      DrivenBound(m, DrivenJoints, |bind|);
      PoseUnbound(bind, m, Rotations(acos, Positions(skeleton.value)), DrivenJoints, i);
    }
  }

  /**
   * When no two joints share a bone, the bone of each driven joint ends up as
   * that joint's Z-after-Y rotation times its bind pose.
   */
  lemma DrivenPoseInjective(bind: seq<Matrix>, m: JointMap, acos: real -> real, s: Skeleton, j: JointType)
    requires DrivesSafely(m, |bind|) && Injective(m) && j in DrivenJoints
    ensures j in m && 0 <= m[j] < |bind|
    ensures DrivenPose(bind, m, acos, Some(s))[m[j]] == Mul(JointRotation(acos, Positions(s), j), bind[m[j]])
  {
    DrivenBound(m, DrivenJoints, |bind|);
    DrivenJointsOnce();
    PoseSingle(bind, m, Rotations(acos, Positions(s)), DrivenJoints, j);
  }

  /** The bones after the blocks of the first `k` driven joints. */
  function DrivenPrefix(bind: seq<Matrix>, m: JointMap, rot: JointType -> Matrix, k: nat): (r: seq<Matrix>)
    requires DrivesSafely(m, |bind|) && k <= |DrivenJoints|
    ensures |r| == |bind|
  {
    DrivenBound(m, DrivenJoints[..k], |bind|);
    Pose(bind, m, rot, DrivenJoints[..k])
  }

  lemma DrivenPrefixZero(bind: seq<Matrix>, m: JointMap, rot: JointType -> Matrix)
    requires DrivesSafely(m, |bind|)
    ensures DrivenPrefix(bind, m, rot, 0) == bind
  {
    assert DrivenJoints[..0] == [];
  }

  /** One more block moves the prefix on by one joint. */
  lemma DrivenPrefixStep(bind: seq<Matrix>, m: JointMap, rot: JointType -> Matrix, k: nat)
    requires DrivesSafely(m, |bind|) && k < |DrivenJoints|
    ensures DrivenJoints[k] in m && 0 <= m[DrivenJoints[k]] < |bind|
    ensures DrivenPrefix(bind, m, rot, k + 1) == PreMultiplied(DrivenPrefix(bind, m, rot, k), m[DrivenJoints[k]], rot(DrivenJoints[k]))
  {
    var j := DrivenJoints[k];
    assert DrivenJoints[..k + 1] == DrivenJoints[..k] + [j];
    DrivenBound(m, DrivenJoints[..k], |bind|);
    PoseSnoc(bind, m, rot, DrivenJoints[..k], j);
  }

  lemma DrivenPrefixAll(bind: seq<Matrix>, m: JointMap, rot: JointType -> Matrix)
    requires DrivesSafely(m, |bind|)
    ensures Bound(m, DrivenJoints, |bind|)
    ensures DrivenPrefix(bind, m, rot, |DrivenJoints|) == Pose(bind, m, rot, DrivenJoints)
  {
    DrivenBound(m, DrivenJoints, |bind|);
    assert DrivenJoints[..|DrivenJoints|] == DrivenJoints;
  }

  /** `bone` with a Y rotation by `side` and then a Z rotation by `front` pre-multiplied onto it. */
  function Turned(side: real, front: real, bone: Matrix): Matrix {
    Mul(CreateRotationZ(front), Mul(CreateRotationY(side), bone))
  }

  /**
   * When no two joints share a bone, the bone of each driven joint ends up
   * turned by that joint's signed side and front angles, and these can be
   * computed on the sensor's own coordinates.
   */
  lemma BoneOfJoint(bind: seq<Matrix>, m: JointMap, acos: real -> real, s: Skeleton, j: JointType, side: real, front: real)
    requires DrivesSafely(m, |bind|) && Injective(m) && j in DrivenJoints
    requires side == SideRule(acos, RawPositions(s), j).Value() && front == FrontRule(acos, RawPositions(s), j).Value()
    ensures j in m && 0 <= m[j] < |bind|
    ensures DrivenPose(bind, m, acos, Some(s))[m[j]] == Turned(side, front, bind[m[j]])
  {
    DrivenPoseInjective(bind, m, acos, s, j);
    PoseIgnoresOffset(acos, s, j);
    var p := Positions(s);
    MulAssociates(CreateRotationZ(FrontRule(acos, p, j).Value()), CreateRotationY(SideRule(acos, p, j).Value()), bind[m[j]]);
  }

  /**
   * The left shoulder's side angle is measured from down-and-outward and is
   * negated when the upper arm is closer to the outward direction than to
   * straight down; its front angle is measured from straight down and is
   * negated when the elbow is nearer the sensor than the shoulder.
   */
  lemma LeftShoulderBone(bind: seq<Matrix>, m: JointMap, acos: real -> real, s: Skeleton)
    requires DrivesSafely(m, |bind|) && Injective(m)
    ensures ShoulderLeft in m && 0 <= m[ShoulderLeft] < |bind|
    ensures var q := RawPositions(s);
      var upper := SidePlane(q(ShoulderLeft), q(ElbowLeft));
      DrivenPose(bind, m, acos, Some(s))[m[ShoulderLeft]] == Turned(
        SignedAngle(AngleBetweenTwoVectors(acos, Plus(Down, Left), upper), AngleBetweenTwoVectors(acos, Left, upper) < AngleBetweenTwoVectors(acos, Down, upper)).Value(),
        SignedAngle(AngleBetweenTwoVectors(acos, Down, FrontPlane(q(ShoulderLeft), q(ElbowLeft))), q(ElbowLeft).z < q(ShoulderLeft).z).Value(),
        bind[m[ShoulderLeft]])
  {
    var q := RawPositions(s);
    var upper := SidePlane(q(ShoulderLeft), q(ElbowLeft));
    BoneOfJoint(bind, m, acos, s, ShoulderLeft,
      SignedAngle(AngleBetweenTwoVectors(acos, Plus(Down, Left), upper), AngleBetweenTwoVectors(acos, Left, upper) < AngleBetweenTwoVectors(acos, Down, upper)).Value(),
      SignedAngle(AngleBetweenTwoVectors(acos, Down, FrontPlane(q(ShoulderLeft), q(ElbowLeft))), q(ElbowLeft).z < q(ShoulderLeft).z).Value());
  }

  /**
   * The left elbow turns by the angles between the upper arm and the
   * forearm: the side angle as it is, the front angle always negated.
   */
  lemma LeftElbowBone(bind: seq<Matrix>, m: JointMap, acos: real -> real, s: Skeleton)
    requires DrivesSafely(m, |bind|) && Injective(m)
    ensures ElbowLeft in m && 0 <= m[ElbowLeft] < |bind|
    ensures var q := RawPositions(s);
      DrivenPose(bind, m, acos, Some(s))[m[ElbowLeft]] == Turned(
        AngleBetweenTwoVectors(acos, SidePlane(q(ShoulderLeft), q(ElbowLeft)), SidePlane(q(ElbowLeft), q(WristLeft))),
        -AngleBetweenTwoVectors(acos, FrontPlane(q(ShoulderLeft), q(ElbowLeft)), FrontPlane(q(ElbowLeft), q(WristLeft))),
        bind[m[ElbowLeft]])
  {
    var q := RawPositions(s);
    BoneOfJoint(bind, m, acos, s, ElbowLeft,
      AngleBetweenTwoVectors(acos, SidePlane(q(ShoulderLeft), q(ElbowLeft)), SidePlane(q(ElbowLeft), q(WristLeft))),
      -AngleBetweenTwoVectors(acos, FrontPlane(q(ShoulderLeft), q(ElbowLeft)), FrontPlane(q(ElbowLeft), q(WristLeft))));
  }

  /**
   * The left wrist turns by the angles between the forearm and the hand: the
   * side angle as it is, the front angle always negated.
   */
  lemma LeftWristBone(bind: seq<Matrix>, m: JointMap, acos: real -> real, s: Skeleton)
    requires DrivesSafely(m, |bind|) && Injective(m)
    ensures WristLeft in m && 0 <= m[WristLeft] < |bind|
    ensures var q := RawPositions(s);
      DrivenPose(bind, m, acos, Some(s))[m[WristLeft]] == Turned(
        AngleBetweenTwoVectors(acos, SidePlane(q(ElbowLeft), q(WristLeft)), SidePlane(q(WristLeft), q(HandLeft))),
        -AngleBetweenTwoVectors(acos, FrontPlane(q(ElbowLeft), q(WristLeft)), FrontPlane(q(WristLeft), q(HandLeft))),
        bind[m[WristLeft]])
  {
    var q := RawPositions(s);
    BoneOfJoint(bind, m, acos, s, WristLeft,
      AngleBetweenTwoVectors(acos, SidePlane(q(ElbowLeft), q(WristLeft)), SidePlane(q(WristLeft), q(HandLeft))),
      -AngleBetweenTwoVectors(acos, FrontPlane(q(ElbowLeft), q(WristLeft)), FrontPlane(q(WristLeft), q(HandLeft))));
  }

  /**
   * The right shoulder's side angle is measured from down-and-outward and is
   * negated when the upper arm is further from the outward direction than
   * from straight down; its front angle is measured from straight down and
   * is negated when the elbow is nearer the sensor than the shoulder.
   */
  lemma RightShoulderBone(bind: seq<Matrix>, m: JointMap, acos: real -> real, s: Skeleton)
    requires DrivesSafely(m, |bind|) && Injective(m)
    ensures ShoulderRight in m && 0 <= m[ShoulderRight] < |bind|
    ensures var q := RawPositions(s);
      var upper := SidePlane(q(ShoulderRight), q(ElbowRight));
      DrivenPose(bind, m, acos, Some(s))[m[ShoulderRight]] == Turned(
        SignedAngle(AngleBetweenTwoVectors(acos, Plus(Down, Right), upper), AngleBetweenTwoVectors(acos, Right, upper) > AngleBetweenTwoVectors(acos, Down, upper)).Value(),
        SignedAngle(AngleBetweenTwoVectors(acos, Down, FrontPlane(q(ShoulderRight), q(ElbowRight))), q(ElbowRight).z < q(ShoulderRight).z).Value(),
        bind[m[ShoulderRight]])
  {
    var q := RawPositions(s);
    var upper := SidePlane(q(ShoulderRight), q(ElbowRight));
    BoneOfJoint(bind, m, acos, s, ShoulderRight,
      SignedAngle(AngleBetweenTwoVectors(acos, Plus(Down, Right), upper), AngleBetweenTwoVectors(acos, Right, upper) > AngleBetweenTwoVectors(acos, Down, upper)).Value(),
      SignedAngle(AngleBetweenTwoVectors(acos, Down, FrontPlane(q(ShoulderRight), q(ElbowRight))), q(ElbowRight).z < q(ShoulderRight).z).Value());
  }

  /**
   * The right elbow turns by the angles between the upper arm and the
   * forearm, both always negated.
   */
  lemma RightElbowBone(bind: seq<Matrix>, m: JointMap, acos: real -> real, s: Skeleton)
    requires DrivesSafely(m, |bind|) && Injective(m)
    ensures ElbowRight in m && 0 <= m[ElbowRight] < |bind|
    ensures var q := RawPositions(s);
      DrivenPose(bind, m, acos, Some(s))[m[ElbowRight]] == Turned(
        -AngleBetweenTwoVectors(acos, SidePlane(q(ShoulderRight), q(ElbowRight)), SidePlane(q(ElbowRight), q(WristRight))),
        -AngleBetweenTwoVectors(acos, FrontPlane(q(ShoulderRight), q(ElbowRight)), FrontPlane(q(ElbowRight), q(WristRight))),
        bind[m[ElbowRight]])
  {
    var q := RawPositions(s);
    BoneOfJoint(bind, m, acos, s, ElbowRight,
      -AngleBetweenTwoVectors(acos, SidePlane(q(ShoulderRight), q(ElbowRight)), SidePlane(q(ElbowRight), q(WristRight))),
      -AngleBetweenTwoVectors(acos, FrontPlane(q(ShoulderRight), q(ElbowRight)), FrontPlane(q(ElbowRight), q(WristRight))));
  }

  /**
   * The right wrist turns by the angles between the forearm and the hand:
   * the side angle as it is, the front angle always negated.
   */
  lemma RightWristBone(bind: seq<Matrix>, m: JointMap, acos: real -> real, s: Skeleton)
    requires DrivesSafely(m, |bind|) && Injective(m)
    ensures WristRight in m && 0 <= m[WristRight] < |bind|
    ensures var q := RawPositions(s);
      DrivenPose(bind, m, acos, Some(s))[m[WristRight]] == Turned(
        AngleBetweenTwoVectors(acos, SidePlane(q(ElbowRight), q(WristRight)), SidePlane(q(WristRight), q(HandRight))),
        -AngleBetweenTwoVectors(acos, FrontPlane(q(ElbowRight), q(WristRight)), FrontPlane(q(WristRight), q(HandRight))),
        bind[m[WristRight]])
  {
    var q := RawPositions(s);
    BoneOfJoint(bind, m, acos, s, WristRight,
      AngleBetweenTwoVectors(acos, SidePlane(q(ElbowRight), q(WristRight)), SidePlane(q(WristRight), q(HandRight))),
      -AngleBetweenTwoVectors(acos, FrontPlane(q(ElbowRight), q(WristRight)), FrontPlane(q(WristRight), q(HandRight))));
  }

  /**
   * The left hip turns by the angles of the thigh from straight down, the
   * side one negated when the knee lies further along X than the hip and the
   * front one when the knee is further from the sensor.
   */
  lemma LeftHipBone(bind: seq<Matrix>, m: JointMap, acos: real -> real, s: Skeleton)
    requires DrivesSafely(m, |bind|) && Injective(m)
    ensures HipLeft in m && 0 <= m[HipLeft] < |bind|
    ensures var q := RawPositions(s);
      DrivenPose(bind, m, acos, Some(s))[m[HipLeft]] == Turned(
        SignedAngle(AngleBetweenTwoVectors(acos, Down, SidePlane(q(HipLeft), q(KneeLeft))), q(KneeLeft).x > q(HipLeft).x).Value(),
        SignedAngle(AngleBetweenTwoVectors(acos, Down, FrontPlane(q(HipLeft), q(KneeLeft))), q(KneeLeft).z > q(HipLeft).z).Value(),
        bind[m[HipLeft]])
  {
    var q := RawPositions(s);
    BoneOfJoint(bind, m, acos, s, HipLeft,
      SignedAngle(AngleBetweenTwoVectors(acos, Down, SidePlane(q(HipLeft), q(KneeLeft))), q(KneeLeft).x > q(HipLeft).x).Value(),
      SignedAngle(AngleBetweenTwoVectors(acos, Down, FrontPlane(q(HipLeft), q(KneeLeft))), q(KneeLeft).z > q(HipLeft).z).Value());
  }

  /**
   * The left knee turns by the angles between the thigh and the shin, the
   * side one negated when the ankle lies further along X than the knee and
   * the front one when the ankle is further from the sensor.
   */
  lemma LeftKneeBone(bind: seq<Matrix>, m: JointMap, acos: real -> real, s: Skeleton)
    requires DrivesSafely(m, |bind|) && Injective(m)
    ensures KneeLeft in m && 0 <= m[KneeLeft] < |bind|
    ensures var q := RawPositions(s);
      DrivenPose(bind, m, acos, Some(s))[m[KneeLeft]] == Turned(
        SignedAngle(AngleBetweenTwoVectors(acos, SidePlane(q(HipLeft), q(KneeLeft)), SidePlane(q(KneeLeft), q(AnkleLeft))), q(AnkleLeft).x > q(KneeLeft).x).Value(),
        SignedAngle(AngleBetweenTwoVectors(acos, FrontPlane(q(HipLeft), q(KneeLeft)), FrontPlane(q(KneeLeft), q(AnkleLeft))), q(AnkleLeft).z > q(KneeLeft).z).Value(),
        bind[m[KneeLeft]])
  {
    var q := RawPositions(s);
    BoneOfJoint(bind, m, acos, s, KneeLeft,
      SignedAngle(AngleBetweenTwoVectors(acos, SidePlane(q(HipLeft), q(KneeLeft)), SidePlane(q(KneeLeft), q(AnkleLeft))), q(AnkleLeft).x > q(KneeLeft).x).Value(),
      SignedAngle(AngleBetweenTwoVectors(acos, FrontPlane(q(HipLeft), q(KneeLeft)), FrontPlane(q(KneeLeft), q(AnkleLeft))), q(AnkleLeft).z > q(KneeLeft).z).Value());
  }

  /**
   * The right hip turns by the angles of the thigh from straight down, the
   * side one negated when the knee lies further along X than the hip and the
   * front one when the knee is further from the sensor.
   */
  lemma RightHipBone(bind: seq<Matrix>, m: JointMap, acos: real -> real, s: Skeleton)
    requires DrivesSafely(m, |bind|) && Injective(m)
    ensures HipRight in m && 0 <= m[HipRight] < |bind|
    ensures var q := RawPositions(s);
      DrivenPose(bind, m, acos, Some(s))[m[HipRight]] == Turned(
        SignedAngle(AngleBetweenTwoVectors(acos, Down, SidePlane(q(HipRight), q(KneeRight))), q(KneeRight).x > q(HipRight).x).Value(),
        SignedAngle(AngleBetweenTwoVectors(acos, Down, FrontPlane(q(HipRight), q(KneeRight))), q(KneeRight).z > q(HipRight).z).Value(),
        bind[m[HipRight]])
  {
    var q := RawPositions(s);
    BoneOfJoint(bind, m, acos, s, HipRight,
      SignedAngle(AngleBetweenTwoVectors(acos, Down, SidePlane(q(HipRight), q(KneeRight))), q(KneeRight).x > q(HipRight).x).Value(),
      SignedAngle(AngleBetweenTwoVectors(acos, Down, FrontPlane(q(HipRight), q(KneeRight))), q(KneeRight).z > q(HipRight).z).Value());
  }

  /**
   * The right knee turns by the angles between the thigh and the shin, the
   * side one negated when the ankle lies further along X than the knee and
   * the front one when the ankle is further from the sensor.
   */
  lemma RightKneeBone(bind: seq<Matrix>, m: JointMap, acos: real -> real, s: Skeleton)
    requires DrivesSafely(m, |bind|) && Injective(m)
    ensures KneeRight in m && 0 <= m[KneeRight] < |bind|
    ensures var q := RawPositions(s);
      DrivenPose(bind, m, acos, Some(s))[m[KneeRight]] == Turned(
        SignedAngle(AngleBetweenTwoVectors(acos, SidePlane(q(HipRight), q(KneeRight)), SidePlane(q(KneeRight), q(AnkleRight))), q(AnkleRight).x > q(KneeRight).x).Value(),
        SignedAngle(AngleBetweenTwoVectors(acos, FrontPlane(q(HipRight), q(KneeRight)), FrontPlane(q(KneeRight), q(AnkleRight))), q(AnkleRight).z > q(KneeRight).z).Value(),
        bind[m[KneeRight]])
  {
    var q := RawPositions(s);
    BoneOfJoint(bind, m, acos, s, KneeRight,
      SignedAngle(AngleBetweenTwoVectors(acos, SidePlane(q(HipRight), q(KneeRight)), SidePlane(q(KneeRight), q(AnkleRight))), q(AnkleRight).x > q(KneeRight).x).Value(),
      SignedAngle(AngleBetweenTwoVectors(acos, FrontPlane(q(HipRight), q(KneeRight)), FrontPlane(q(KneeRight), q(AnkleRight))), q(AnkleRight).z > q(KneeRight).z).Value());
  }

  /**
   * The spine turns by the angles of the spine-to-shoulder-centre segment
   * from straight up, the side one negated when the spine lies further along
   * X than the shoulder centre and the front one when the shoulder centre is
   * further from the sensor.
   */
  lemma SpineBone(bind: seq<Matrix>, m: JointMap, acos: real -> real, s: Skeleton)
    requires DrivesSafely(m, |bind|) && Injective(m)
    ensures Spine in m && 0 <= m[Spine] < |bind|
    ensures var q := RawPositions(s);
      DrivenPose(bind, m, acos, Some(s))[m[Spine]] == Turned(
        SignedAngle(AngleBetweenTwoVectors(acos, Up, SidePlane(q(Spine), q(ShoulderCenter))), q(Spine).x > q(ShoulderCenter).x).Value(),
        SignedAngle(AngleBetweenTwoVectors(acos, Up, FrontPlane(q(Spine), q(ShoulderCenter))), q(ShoulderCenter).z > q(Spine).z).Value(),
        bind[m[Spine]])
  {
    var q := RawPositions(s);
    BoneOfJoint(bind, m, acos, s, Spine,
      SignedAngle(AngleBetweenTwoVectors(acos, Up, SidePlane(q(Spine), q(ShoulderCenter))), q(Spine).x > q(ShoulderCenter).x).Value(),
      SignedAngle(AngleBetweenTwoVectors(acos, Up, FrontPlane(q(Spine), q(ShoulderCenter))), q(ShoulderCenter).z > q(Spine).z).Value());
  }

  /**
   * The head turns by the angles of the neck from straight up, the side one
   * negated when the shoulder centre lies further along X than the head and
   * the front one when the head is further from the sensor than the shoulder
   * centre.
   */
  lemma HeadBone(bind: seq<Matrix>, m: JointMap, acos: real -> real, s: Skeleton)
    requires DrivesSafely(m, |bind|) && Injective(m)
    ensures Head in m && 0 <= m[Head] < |bind|
    ensures var q := RawPositions(s);
      DrivenPose(bind, m, acos, Some(s))[m[Head]] == Turned(
        SignedAngle(AngleBetweenTwoVectors(acos, Up, SidePlane(q(ShoulderCenter), q(Head))), q(ShoulderCenter).x > q(Head).x).Value(),
        SignedAngle(AngleBetweenTwoVectors(acos, Up, FrontPlane(q(ShoulderCenter), q(Head))), q(Head).z > q(ShoulderCenter).z).Value(),
        bind[m[Head]])
  {
    var q := RawPositions(s);
    BoneOfJoint(bind, m, acos, s, Head,
      SignedAngle(AngleBetweenTwoVectors(acos, Up, SidePlane(q(ShoulderCenter), q(Head))), q(ShoulderCenter).x > q(Head).x).Value(),
      SignedAngle(AngleBetweenTwoVectors(acos, Up, FrontPlane(q(ShoulderCenter), q(Head))), q(Head).z > q(ShoulderCenter).z).Value());
  }
}
