/**
 * The sample game: its two joint maps, how it creates the animation player,
 * how it feeds the player the tracked skeletons of each sensor frame, and
 * how many times it draws the model.
 */
module SkinningSample {
  import opened Geometry
  import opened Kinect
  import opened JointBinding
  import opened JointMaps
  import opened PoseSolver
  import opened BonePose
  import opened SkinnedModel

  /** The driving blocks can use the "tube" map exactly when the model has more than one bone. */
  lemma TubeMapDrivesSafely(n: int)
    ensures DrivesSafely(TubeMap, n) <==> n > 1
  {
    if DrivesSafely(TubeMap, n) {
      assert Spine in DrivenJoints;
    }
  }

  /**
   * Driving `body` and then `h`, where every joint of `body` is bound to bone
   * 1 and `h` to bone 0: bone 0 turns by `h`'s rotation, bone 1 compounds the
   * rotations of `body` in their order, and every other bone keeps its value.
   */
  lemma TwoBonePose(bind: seq<Matrix>, m: JointMap, rot: JointType -> Matrix, body: seq<JointType>, h: JointType)
    requires Bound(m, body, |bind|) && |bind| > 1
    requires h in m && m[h] == 0 && forall k :: 0 <= k < |body| ==> m[body[k]] == 1
    ensures Bound(m, body + [h], |bind|)
    ensures var r := Pose(bind, m, rot, body + [h]);
      && r[0] == Mul(rot(h), bind[0])
      && r[1] == Mul(AllRotations(rot, body), bind[1])
      && forall i :: 2 <= i < |bind| ==> r[i] == bind[i]
  {
    PoseSnoc(bind, m, rot, body, h);
    PoseUnbound(bind, m, rot, body, 0);
    PoseAllBound(bind, m, rot, body, 1);
    forall i | 2 <= i < |bind| ensures Pose(bind, m, rot, body)[i] == bind[i] {
      PoseUnbound(bind, m, rot, body, i);
    }
  }

  /**
   * With a map shaped like the "tube" map, a skeleton turns bone 0 by the
   * head's rotation, compounds the rotations of all the other driven joints
   * onto bone 1, in their order, and leaves every other bone at its bind pose.
   */
  lemma TubePose(bind: seq<Matrix>, m: JointMap, acos: real -> real, s: Skeleton)
    requires |bind| > 1 && forall j :: j in m && m[j] == if j == Head then 0 else 1
    ensures DrivesSafely(m, |bind|)
    ensures var r := DrivenPose(bind, m, acos, Some(s));
      && r[0] == Mul(JointRotation(acos, Positions(s), Head), bind[0])
      && r[1] == Mul(AllRotations(Rotations(acos, Positions(s)), DrivenJoints[..11]), bind[1])
      && forall i :: 2 <= i < |bind| ==> r[i] == bind[i]
  {
    var rot := Rotations(acos, Positions(s));
    var body := DrivenJoints[..11];
    HeadLast();
    forall k | 0 <= k < |body| ensures body[k] in m && m[body[k]] == 1 && 0 <= m[body[k]] < |bind| {
      assert body[k] == DrivenJoints[k];
    }
    TwoBonePose(bind, m, rot, body, Head);
    assert DrivenPose(bind, m, acos, Some(s)) == Pose(bind, m, rot, body + [Head]);
  }

  /**
   * Every joint a driving block looks up is in the sample's map; the lookups
   * stay inside the bone array exactly when the model has more than 36 bones.
   */
  lemma SampleMapDrivesSafely(n: int)
    ensures forall j :: j in DrivenJoints ==> j in SampleMap
    ensures DrivesSafely(SampleMap, n) <==> n > 36
  {
    if DrivesSafely(SampleMap, n) {
      assert HipRight in DrivenJoints;
    }
  }

  /**
   * With the sample's map the bones of the hip centre, the shoulder centre
   * and both ankles keep their bind pose.
   */
  lemma SampleStillBones(bind: seq<Matrix>, acos: real -> real, skeleton: Option<Skeleton>)
    requires |bind| > 43
    ensures DrivesSafely(SampleMap, |bind|)
    ensures var r := DrivenPose(bind, SampleMap, acos, skeleton);
      r[2] == bind[2] && r[9] == bind[9] && r[39] == bind[39] && r[43] == bind[43]
  {
    var driven := {8, 10, 11, 12, 14, 22, 23, 25, 6, 5, 36, 35};
    SampleMapDrivesSafely(|bind|);
    assert forall j :: j in DrivenJoints && j in SampleMap ==> SampleMap[j] in driven;
    forall i | i in {2, 9, 39, 43} ensures DrivenPose(bind, SampleMap, acos, skeleton)[i] == bind[i] {
      DrivenPoseUndriven(bind, SampleMap, acos, skeleton, driven, i);
    }
  }

  /** One more skeleton of the frame: the tracked prefix grows by it exactly when it is tracked. */
  lemma TrackedStep(ss: seq<Skeleton>, k: int, tracked: seq<Skeleton>)
    requires 0 <= k < |ss| && tracked == TrackedOf(ss[..k])
    ensures tracked + (if IsTracked(ss[k]) then [ss[k]] else []) == TrackedOf(ss[..k + 1])
  {
    TakeSnoc(ss, k);
    TrackedOfSnoc(ss[..k], ss[k]);
  }

  /** A prefix one longer is the prefix with the next element appended. */
  lemma TakeSnoc<T>(a: seq<T>, k: int)
    requires 0 <= k < |a|
    ensures a[..k + 1] == a[..k] + [a[k]]
  {
  }

  /** The prefix of a sequence's whole length is the sequence. */
  lemma TakeAll<T>(a: seq<T>)
    ensures a[..|a|] == a
  {
  }

  /** Concatenation associates. */
  lemma AppendAssociates<T>(a: seq<T>, b: seq<T>, c: seq<T>)
    ensures a + (b + c) == a + b + c
  {
  }

  /**
   * The handler's loop over the skeletons of a frame: every tracked one, in
   * array order, updates the player, so the last of them is what it shows.
   */
  method UpdateTracked(player: AnimationPlayer, received: seq<Skeleton>, acos: real -> real) returns (ghost tracked: seq<Skeleton>, ghost last: Option<Skeleton>)
    requires player.Valid() && player.CanUpdate()
    modifies player, player.boneTransforms, player.worldTransforms, player.skinTransforms
    ensures tracked == TrackedOf(received)
    ensures player.history == old(player.history) + tracked
    ensures player.ang == old(player.ang) + |tracked| as real
    ensures tracked == [] ==> unchanged(player, player.boneTransforms, player.worldTransforms, player.skinTransforms)
    ensures tracked != [] <==> last.Some?
    ensures last.Some? ==> tracked[|tracked| - 1] == last.value && player.Shows(acos, last.value)
  {
    tracked := [];
    last := None;
    var k := 0;
    while k < |received|
      invariant 0 <= k <= |received|
      invariant tracked == TrackedOf(received[..k])
      invariant player.history == old(player.history) + tracked
      invariant player.ang == old(player.ang) + |tracked| as real
      invariant tracked == [] ==> unchanged(player, player.boneTransforms, player.worldTransforms, player.skinTransforms)
      invariant tracked != [] <==> last.Some?
      invariant last.Some? ==> tracked[|tracked| - 1] == last.value && player.Shows(acos, last.value)
    {
      tracked, last := TrackSkeleton(player, received, k, acos, old(player.history), old(player.ang), tracked, last);
      k := k + 1;
    }
    TakeAll(received);
  }

  /**
   * One pass of the handler's loop, over the skeleton at `k`: a tracked
   * skeleton updates the player, and becomes the skeleton it shows; any other
   * leaves it as it was.
   */
  method TrackSkeleton(player: AnimationPlayer, received: seq<Skeleton>, k: int, acos: real -> real,
                       ghost history: seq<Skeleton>, ghost ang: real, ghost tracked: seq<Skeleton>, ghost last: Option<Skeleton>)
    returns (ghost tracked': seq<Skeleton>, ghost last': Option<Skeleton>)
    requires player.Valid() && player.CanUpdate() && 0 <= k < |received|
    requires tracked == TrackedOf(received[..k])
    requires player.history == history + tracked
    requires player.ang == ang + |tracked| as real
    requires tracked != [] <==> last.Some?
    requires last.Some? ==> tracked[|tracked| - 1] == last.value && player.Shows(acos, last.value)
    modifies player, player.boneTransforms, player.worldTransforms, player.skinTransforms
    ensures tracked' == TrackedOf(received[..k + 1])
    ensures player.history == history + tracked'
    ensures player.ang == ang + |tracked'| as real
    ensures tracked' == [] ==> unchanged(player, player.boneTransforms, player.worldTransforms, player.skinTransforms)
    ensures tracked' != [] <==> last'.Some?
    ensures last'.Some? ==> tracked'[|tracked'| - 1] == last'.value && player.Shows(acos, last'.value)
  {
    var s := received[k];
    TrackedStep(received, k, tracked);
    tracked', last' := tracked, last;
    if s.trackingState == Tracked {
      player.Update(s, acos);
      AppendAssociates(history, tracked, [s]);
      tracked', last' := tracked + [s], Some(s);
    }
  }

  class SkinningSampleGame {
    /** The player of the loaded model; `null` until the content is loaded. */
    var animationPlayer: AnimationPlayer?
    /** The skeletons of the latest sensor frame; `null` until the first frame. */
    var skeletons: array?<Skeleton>

    constructor ()
      ensures animationPlayer == null && skeletons == null
    {
      animationPlayer := null;
      skeletons := null;
    }

    /**
     * Creates the player for `currentModel` with the sample's joint map;
     * fails, leaving the game as it was, when the model carries no skinning data.
     */
    method LoadContent(currentModel: Model) returns (loaded: bool)
      modifies this`animationPlayer
      ensures loaded <==> currentModel.tag.Some?
      ensures loaded ==>
        && animationPlayer != null && fresh(animationPlayer)
        && fresh(animationPlayer.boneTransforms) && fresh(animationPlayer.worldTransforms) && fresh(animationPlayer.skinTransforms)
        && animationPlayer.Valid()
        && animationPlayer.skinningData == currentModel.tag.value
        && Some(animationPlayer.jointMap) == LoadJointMap()
        && animationPlayer.skeleton == None && animationPlayer.history == []
      ensures !loaded ==> animationPlayer == old(animationPlayer)
    {
      if currentModel.tag.None? {
        return false;
      }
      SampleMapContents();
      var jointMap := LoadJointMap().value;
      animationPlayer := new AnimationPlayer.FromModel(currentModel, jointMap);
      return true;
    }

    /**
     * The handler of a sensor frame: copies the frame's skeletons into a
     * fresh array and updates the player once per tracked skeleton, in array
     * order; a missing frame changes nothing.
     */
    method SkeletonFrameReady(frame: Option<SkeletonFrame>, acos: real -> real)
      requires animationPlayer != null && animationPlayer.Valid() && animationPlayer.CanUpdate()
      modifies this`skeletons, animationPlayer, animationPlayer.boneTransforms, animationPlayer.worldTransforms, animationPlayer.skinTransforms
      ensures frame.None? ==> skeletons == old(skeletons)
      ensures frame.None? ==> unchanged(animationPlayer, animationPlayer.boneTransforms, animationPlayer.worldTransforms, animationPlayer.skinTransforms)
      ensures frame.Some? ==> skeletons != null && fresh(skeletons) && skeletons[..] == frame.value.skeletonData
      ensures frame.Some? ==>
        var tracked := TrackedOf(frame.value.skeletonData);
        && animationPlayer.history == old(animationPlayer.history) + tracked
        && animationPlayer.ang == old(animationPlayer.ang) + |tracked| as real
        && (tracked == [] ==> unchanged(animationPlayer, animationPlayer.boneTransforms, animationPlayer.worldTransforms, animationPlayer.skinTransforms))
        && (tracked != [] ==> animationPlayer.Shows(acos, tracked[|tracked| - 1]))
    {
      if frame.Some? {
        skeletons := NewSkeletonArray(frame.value);
        ghost var tracked, last := UpdateTracked(animationPlayer, skeletons[..], acos);
      }
    }

    /** The number of times the model is drawn: once per tracked skeleton of the latest frame. */
    method Draw() returns (drawCalls: nat)
      ensures drawCalls == if skeletons == null then 0 else |TrackedOf(skeletons[..])|
    {
      drawCalls := 0;
      if skeletons != null {
        var k := 0;
        while k < skeletons.Length
          invariant 0 <= k <= skeletons.Length
          invariant drawCalls == |TrackedOf(skeletons[..k])|
        {
          var s := skeletons[k];
          if s.trackingState == Tracked {
            drawCalls := drawCalls + 1;
          }
          assert skeletons[..k + 1] == skeletons[..k] + [s];
          TrackedOfSnoc(skeletons[..k], s);
          k := k + 1;
        }
        assert skeletons[..k] == skeletons[..];
      }
    }
  }
}
