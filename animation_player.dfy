/**
 * The animation player: it owns the bone, world and skin transform arrays of
 * one skinned model and recomputes them from a tracked skeleton.
 */
module SkinnedModel {
  import opened Geometry
  import opened Kinect
  import opened JointBinding
  import opened JointMaps
  import opened PoseSolver
  import opened BonePose
  import opened Hierarchy

  /** The skinning data the content pipeline attaches to a model. */
  datatype SkinningData = SkinningData(bindPose: seq<Matrix>, inverseBindPose: seq<Matrix>, skeletonHierarchy: seq<int>)

  /** A loaded model; its tag is the skinning data, or `None` when it holds anything else. */
  datatype Model = Model(tag: Option<SkinningData>)

  /** The driving blocks can use the "dude" map exactly when the model has more than 55 bones. */
  lemma DudeMapDrivesSafely(n: int)
    ensures DrivesSafely(DudeMap, n) <==> n > 55
  {
    if DrivesSafely(DudeMap, n) {
      assert KneeRight in DrivenJoints;
    }
  }

  /**
   * With the "dude" map the bones of the hip centre, the shoulder centre and
   * both ankles keep their bind pose; the left-foot angles are computed but
   * never applied.
   */
  lemma DudeStillBones(bind: seq<Matrix>, acos: real -> real, skeleton: Option<Skeleton>)
    requires |bind| > 56
    ensures DrivesSafely(DudeMap, |bind|)
    ensures var r := DrivenPose(bind, DudeMap, acos, skeleton);
      r[1] == bind[1] && r[6] == bind[6] && r[52] == bind[52] && r[56] == bind[56]
  {
    var driven := {3, 7, 13, 14, 15, 32, 33, 34, 50, 51, 54, 55};
    DudeMapDrivesSafely(|bind|);
    assert forall j :: j in DrivenJoints && j in DudeMap ==> DudeMap[j] in driven;
    forall i | i in {1, 6, 52, 56} ensures DrivenPose(bind, DudeMap, acos, skeleton)[i] == bind[i] {
      DrivenPoseUndriven(bind, DudeMap, acos, skeleton, driven, i);
    }
  }

  class AnimationPlayer {
    /** The bind pose, inverse bind pose and skeleton hierarchy of the model. */
    const skinningData: SkinningData
    /** Which bone each driven joint rotates. */
    const jointMap: JointMap
    const boneTransforms: array<Matrix>
    const worldTransforms: array<Matrix>
    const skinTransforms: array<Matrix>
    /** The skeleton the bones follow; `None` until the first update. */
    var skeleton: Option<Skeleton>
    /** A counter the bone update bumps on every call. */
    var ang: real
    /** The skeletons of all the updates so far, in order. */
    ghost var history: seq<Skeleton>

    /** The three transform arrays have one entry per bind-pose bone, and are distinct. */
    predicate Valid() {
      && boneTransforms.Length == |skinningData.bindPose|
      && worldTransforms.Length == |skinningData.bindPose|
      && skinTransforms.Length == |skinningData.bindPose|
      && boneTransforms != worldTransforms
      && boneTransforms != skinTransforms
      && worldTransforms != skinTransforms
    }

    /**
     * What an update reads without a check: a bound bone for every driven
     * joint, a root bone, a parent in range for every other bone, and an
     * inverse bind pose for every bone.
     */
    predicate CanUpdate() {
      var n := |skinningData.bindPose|;
      && DrivesSafely(jointMap, n)
      && n > 0
      && ParentsInRange(skinningData.skeletonHierarchy, n)
      && |skinningData.inverseBindPose| >= n
    }

    /** A player for `skinningData` that drives the "dude" model. */
    constructor (skinningData: SkinningData)
      ensures Valid()
      ensures this.skinningData == skinningData && Some(jointMap) == LoadJointMapDude()
      ensures fresh(boneTransforms) && fresh(worldTransforms) && fresh(skinTransforms)
      ensures forall i :: 0 <= i < boneTransforms.Length ==> boneTransforms[i] == Zero && worldTransforms[i] == Zero && skinTransforms[i] == Zero
      ensures skeleton == None && ang == 0.0 && history == []
    {
      var n := |skinningData.bindPose|;
      this.skinningData := skinningData;
      boneTransforms := new Matrix[n](_ => Zero);
      worldTransforms := new Matrix[n](_ => Zero);
      skinTransforms := new Matrix[n](_ => Zero);
      DudeMapContents();
      jointMap := LoadJointMapDude().value;
      skeleton := None;
      ang := 0.0;
      history := [];
    }

    /** A player for the skinning data in the tag of `model`, with the given joint map. */
    constructor FromModel(model: Model, jointMap: JointMap)
      requires model.tag.Some?
      ensures Valid()
      ensures skinningData == model.tag.value && this.jointMap == jointMap
      ensures fresh(boneTransforms) && fresh(worldTransforms) && fresh(skinTransforms)
      ensures forall i :: 0 <= i < boneTransforms.Length ==> boneTransforms[i] == Zero && worldTransforms[i] == Zero && skinTransforms[i] == Zero
      ensures skeleton == None && ang == 0.0 && history == []
    {
      var n := |model.tag.value.bindPose|;
      skinningData := model.tag.value;
      boneTransforms := new Matrix[n](_ => Zero);
      worldTransforms := new Matrix[n](_ => Zero);
      skinTransforms := new Matrix[n](_ => Zero);
      this.jointMap := jointMap;
      skeleton := None;
      ang := 0.0;
      history := [];
    }

    /** Pre-multiplies `boneMatrix` onto the bone of `joint`; no other bone changes. */
    method AddBoneMatrix(joint: JointType, boneMatrix: Matrix)
      requires joint in jointMap && 0 <= jointMap[joint] < boneTransforms.Length
      modifies boneTransforms
      ensures boneTransforms[..] == PreMultiplied(old(boneTransforms[..]), jointMap[joint], boneMatrix)
      ensures boneTransforms[jointMap[joint]] == Mul(boneMatrix, old(boneTransforms[jointMap[joint]]))
      ensures forall i :: 0 <= i < boneTransforms.Length && i != jointMap[joint] ==> boneTransforms[i] == old(boneTransforms[i])
    {
      boneTransforms[jointMap[joint]] := Mul(boneMatrix, boneTransforms[jointMap[joint]]);
    }

    /**
     * The driving block of `joint`, the `k`-th of the driven joints: a Y
     * rotation by its side angle, then a Z rotation by its front angle.
     */
    method DriveJoint(acos: real -> real, p: JointType -> Vector3, joint: JointType, ghost k: nat)
      requires Valid() && DrivesSafely(jointMap, boneTransforms.Length)
      requires k < |DrivenJoints| && DrivenJoints[k] == joint
      requires boneTransforms[..] == DrivenPrefix(skinningData.bindPose, jointMap, Rotations(acos, p), k)
      modifies boneTransforms
      ensures boneTransforms[..] == DrivenPrefix(skinningData.bindPose, jointMap, Rotations(acos, p), k + 1)
    {
      ghost var before := boneTransforms[..];
      var sideAngle := SideRule(acos, p, joint).Value();
      AddBoneMatrix(joint, CreateRotationY(sideAngle));
      var frontAngle := FrontRule(acos, p, joint).Value();
      AddBoneMatrix(joint, CreateRotationZ(frontAngle));
      TwoPreMultiplications(before, jointMap[joint], CreateRotationY(sideAngle), CreateRotationZ(frontAngle));
      DrivenPrefixStep(skinningData.bindPose, jointMap, Rotations(acos, p), k);
    }

    /** The left arm blocks: shoulder, elbow and wrist. */
    method DriveLeftArm(acos: real -> real, p: JointType -> Vector3)
      requires Valid() && DrivesSafely(jointMap, boneTransforms.Length)
      requires boneTransforms[..] == DrivenPrefix(skinningData.bindPose, jointMap, Rotations(acos, p), 0)
      modifies boneTransforms
      ensures boneTransforms[..] == DrivenPrefix(skinningData.bindPose, jointMap, Rotations(acos, p), 3)
    {
      DriveJoint(acos, p, ShoulderLeft, 0);
      DriveJoint(acos, p, ElbowLeft, 1);
      DriveJoint(acos, p, WristLeft, 2);
    }

    /** The right arm blocks: shoulder, elbow and wrist. */
    method DriveRightArm(acos: real -> real, p: JointType -> Vector3)
      requires Valid() && DrivesSafely(jointMap, boneTransforms.Length)
      requires boneTransforms[..] == DrivenPrefix(skinningData.bindPose, jointMap, Rotations(acos, p), 3)
      modifies boneTransforms
      ensures boneTransforms[..] == DrivenPrefix(skinningData.bindPose, jointMap, Rotations(acos, p), 6)
    {
      DriveJoint(acos, p, ShoulderRight, 3);
      DriveJoint(acos, p, ElbowRight, 4);
      DriveJoint(acos, p, WristRight, 5);
    }

    /** The left leg blocks: hip and knee; the angles of the left foot block are never applied. */
    method DriveLeftLeg(acos: real -> real, p: JointType -> Vector3)
      requires Valid() && DrivesSafely(jointMap, boneTransforms.Length)
      requires boneTransforms[..] == DrivenPrefix(skinningData.bindPose, jointMap, Rotations(acos, p), 6)
      modifies boneTransforms
      ensures boneTransforms[..] == DrivenPrefix(skinningData.bindPose, jointMap, Rotations(acos, p), 8)
    {
      DriveJoint(acos, p, HipLeft, 6);
      DriveJoint(acos, p, KneeLeft, 7);
    }

    /** The right leg blocks: hip and knee; the right ankle block is empty. */
    method DriveRightLeg(acos: real -> real, p: JointType -> Vector3)
      requires Valid() && DrivesSafely(jointMap, boneTransforms.Length)
      requires boneTransforms[..] == DrivenPrefix(skinningData.bindPose, jointMap, Rotations(acos, p), 8)
      modifies boneTransforms
      ensures boneTransforms[..] == DrivenPrefix(skinningData.bindPose, jointMap, Rotations(acos, p), 10)
    {
      DriveJoint(acos, p, HipRight, 8);
      DriveJoint(acos, p, KneeRight, 9);
    }

    /** The spine and head blocks. */
    method DriveSpineAndHead(acos: real -> real, p: JointType -> Vector3)
      requires Valid() && DrivesSafely(jointMap, boneTransforms.Length)
      requires boneTransforms[..] == DrivenPrefix(skinningData.bindPose, jointMap, Rotations(acos, p), 10)
      modifies boneTransforms
      ensures boneTransforms[..] == DrivenPrefix(skinningData.bindPose, jointMap, Rotations(acos, p), 12)
    {
      DriveJoint(acos, p, Spine, 10);
      DriveJoint(acos, p, Head, 11);
    }

    /**
     * Resets the bones to the bind pose and, when there is a skeleton, runs
     * the driving blocks on it in their fixed order; bumps the counter.
     */
    method UpdateBoneTransforms(acos: real -> real)
      requires Valid()
      requires skeleton.Some? ==> DrivesSafely(jointMap, boneTransforms.Length)
      modifies boneTransforms, this`ang
      ensures boneTransforms[..] == DrivenPose(skinningData.bindPose, jointMap, acos, skeleton)
      ensures ang == old(ang) + 1.0
    {
      forall i | 0 <= i < boneTransforms.Length {
        boneTransforms[i] := skinningData.bindPose[i];
      }
      assert boneTransforms[..] == skinningData.bindPose;
      if skeleton.Some? {
        var p := Positions(skeleton.value);
        DrivenPrefixZero(skinningData.bindPose, jointMap, Rotations(acos, p));
        DriveLeftArm(acos, p);
        DriveRightArm(acos, p);
        DriveLeftLeg(acos, p);
        DriveRightLeg(acos, p);
        DriveSpineAndHead(acos, p);
        DrivenPrefixAll(skinningData.bindPose, jointMap, Rotations(acos, p));
      }
      ang := ang + 1.0;
    }

    /**
     * Sets the world transform of the root to its bone transform times
     * `rootTransform`, then, in index order, that of every other bone to its
     * bone transform times the world transform its parent has at that point:
     * the new one when the parent comes first, the previous one otherwise.
     */
    method UpdateWorldTransforms(rootTransform: Matrix)
      requires Valid() && worldTransforms.Length > 0
      requires ParentsInRange(skinningData.skeletonHierarchy, worldTransforms.Length)
      modifies worldTransforms
      ensures worldTransforms[0] == Mul(boneTransforms[0], rootTransform)
      ensures forall b :: 1 <= b < worldTransforms.Length ==>
        var parentBone := skinningData.skeletonHierarchy[b];
        worldTransforms[b] == Mul(boneTransforms[b], if parentBone < b then worldTransforms[parentBone] else old(worldTransforms[parentBone]))
      ensures ParentsPrecede(skinningData.skeletonHierarchy, worldTransforms.Length) ==>
        forall b :: 0 <= b < worldTransforms.Length ==>
          worldTransforms[b] == WorldOf(boneTransforms[..], skinningData.skeletonHierarchy, rootTransform, b)
    {
      var hierarchy := skinningData.skeletonHierarchy;
      ghost var precede := ParentsPrecede(hierarchy, worldTransforms.Length);
      worldTransforms[0] := Mul(boneTransforms[0], rootTransform);
      var bone := 1;
      while bone < worldTransforms.Length
        invariant 1 <= bone <= worldTransforms.Length
        invariant worldTransforms[0] == Mul(boneTransforms[0], rootTransform)
        invariant forall b :: 1 <= b < bone ==>
          worldTransforms[b] == Mul(boneTransforms[b], if hierarchy[b] < b then worldTransforms[hierarchy[b]] else old(worldTransforms[hierarchy[b]]))
        invariant forall b :: bone <= b < worldTransforms.Length ==> worldTransforms[b] == old(worldTransforms[b])
        invariant precede ==> forall b :: 0 <= b < bone ==> worldTransforms[b] == WorldOf(boneTransforms[..], hierarchy, rootTransform, b)
      {
        var parentBone := hierarchy[bone];
        worldTransforms[bone] := Mul(boneTransforms[bone], worldTransforms[parentBone]);
        bone := bone + 1;
      }
    }

    /** Sets the skin transform of every bone to its inverse bind pose times its world transform. */
    method UpdateSkinTransforms()
      requires Valid() && |skinningData.inverseBindPose| >= skinTransforms.Length
      modifies skinTransforms
      ensures forall b :: 0 <= b < skinTransforms.Length ==>
        skinTransforms[b] == Mul(skinningData.inverseBindPose[b], worldTransforms[b])
    {
      var bone := 0;
      while bone < skinTransforms.Length
        invariant 0 <= bone <= skinTransforms.Length
        invariant forall b :: 0 <= b < bone ==> skinTransforms[b] == Mul(skinningData.inverseBindPose[b], worldTransforms[b])
      {
        skinTransforms[bone] := Mul(skinningData.inverseBindPose[bone], worldTransforms[bone]);
        bone := bone + 1;
      }
    }

    /**
     * Makes `s` the current skeleton and recomputes the bone, world and skin
     * transforms from it, in that order, with the identity as root transform.
     */
    method Update(s: Skeleton, acos: real -> real)
      requires Valid() && CanUpdate()
      modifies this`skeleton, this`ang, this`history, boneTransforms, worldTransforms, skinTransforms
      ensures skeleton == Some(s) && ang == old(ang) + 1.0 && history == old(history) + [s]
      ensures boneTransforms[..] == DrivenPose(skinningData.bindPose, jointMap, acos, Some(s))
      ensures worldTransforms[0] == boneTransforms[0]
      ensures forall b :: 1 <= b < worldTransforms.Length ==>
        var parentBone := skinningData.skeletonHierarchy[b];
        worldTransforms[b] == Mul(boneTransforms[b], if parentBone < b then worldTransforms[parentBone] else old(worldTransforms[parentBone]))
      ensures ParentsPrecede(skinningData.skeletonHierarchy, worldTransforms.Length) ==>
        forall b :: 0 <= b < worldTransforms.Length ==>
          worldTransforms[b] == WorldOf(boneTransforms[..], skinningData.skeletonHierarchy, Identity, b)
      ensures forall b :: 0 <= b < skinTransforms.Length ==>
        skinTransforms[b] == Mul(skinningData.inverseBindPose[b], worldTransforms[b])
    {
      skeleton := Some(s);
      history := history + [s];
      var rootTransform := Identity;
      UpdateBoneTransforms(acos);
      UpdateWorldTransforms(rootTransform);
      MulIdentity(boneTransforms[0]);
      UpdateSkinTransforms();
    }

    /**
     * The player shows `s`: it is the current skeleton, the bones hold the
     * pose the current skeleton drives, the root's world transform is its
     * bone transform, every bone whose parent comes before it has its bone
     * transform times its parent's world transform (so, when every parent
     * comes first, the world transforms are the hierarchy's products), and
     * every skin transform is its bone's inverse bind pose times its world
     * transform. The pose conjunct
     * is quantified over the current skeleton so that it only comes into play
     * where that pose is mentioned.
     */
    ghost predicate Shows(acos: real -> real, s: Skeleton)
      reads this, boneTransforms, worldTransforms, skinTransforms
    {
      && Valid() && CanUpdate()
      && skeleton == Some(s)
      && (forall t {:trigger DrivenPose(skinningData.bindPose, jointMap, acos, Some(t))} :: skeleton == Some(t) ==>
            boneTransforms[..] == DrivenPose(skinningData.bindPose, jointMap, acos, Some(t)))
      && worldTransforms[0] == boneTransforms[0]
      && (forall b :: 1 <= b < worldTransforms.Length && skinningData.skeletonHierarchy[b] < b ==>
            worldTransforms[b] == Mul(boneTransforms[b], worldTransforms[skinningData.skeletonHierarchy[b]]))
      && (ParentsPrecede(skinningData.skeletonHierarchy, worldTransforms.Length) ==>
            forall b :: 0 <= b < worldTransforms.Length ==>
              worldTransforms[b] == WorldOf(boneTransforms[..], skinningData.skeletonHierarchy, Identity, b))
      && forall b :: 0 <= b < skinTransforms.Length ==>
           skinTransforms[b] == Mul(skinningData.inverseBindPose[b], worldTransforms[b])
    }

    /** The converted position of `joint` in the current skeleton. */
    function Position(joint: JointType): (r: Vector3)
      reads this
      requires skeleton.Some?
      ensures r == Positions(skeleton.value)(joint)
      ensures var q := skeleton.value.joints(joint); r == Vector3(q.x, q.y + 1.0, q.z - 1.0)
    {
      ConvertRealWorldPoint(skeleton.value.joints(joint))
    }

    /**
     * Where the model is drawn: the converted hip centre mirrored and scaled
     * by 40 on the X and Z axes; in the sensor's own coordinates, 40 times
     * the hip centre's distance in front of the one-metre mark.
     */
    function GetModelPosition(): (r: Vector3)
      reads this
      requires skeleton.Some?
      ensures var q := skeleton.value.joints(HipCenter); r == Vector3(-40.0 * q.x, q.y + 1.0, 40.0 - 40.0 * q.z)
    {
      var playerPosition := Position(HipCenter);
      Vector3(-1.0 * playerPosition.x * 40.0, playerPosition.y, -1.0 * playerPosition.z * 40.0)
    }
  }
}
