# Kinect-driven skinned model: pose composition

This project models the core of a Kinect/XNA demo. The demo drives a skinned
3D character from the skeletons the Kinect sensor reports.

- **The animation player** (`SkinnedModel.AnimationPlayer`) keeps three bone
  arrays. On every update it resets the bone transforms to the bind pose. Then
  it computes two angles per driven joint: a side angle and a front angle. It
  pre-multiplies each angle's Y or Z rotation onto the bone that the joint map
  assigns to that joint. After that it propagates world transforms down the
  bone hierarchy and computes the skin transforms.
- **The sample game** (`SkinningSample.SkinningSampleGame`) loads the model
  with one of its hand-written joint maps. For every sensor frame it copies the
  frame's skeletons and updates the player once per *tracked* skeleton, in
  array order. It draws the model once per tracked skeleton of the latest frame.

The model is split into modules:

- `Geometry`: vectors and matrices. To keep products exact, matrices are words
  over rotation factors. Multiplication is concatenation, so it is associative
  with the empty word as identity. No inequality between matrices is claimed,
  so every equality proved here also holds of the real matrices.
- `Kinect`: skeletons, frames, and the tracked-skeleton filter `TrackedOf`.
- `JointBinding`: joint maps, and `Add`, which models `Dictionary.Add`. `Add`
  throws on a duplicate key; here that is `None`.
- `JointMaps`: the three joint tables, which are the "dude", "tube" and sample
  maps.
- `PoseSolver`: point conversion, the angle function and the sign rules of
  every limb block.
- `BonePose`: the pose as a function of the bind pose, the map and the joint
  rotations, with its algebra.
- `Hierarchy`: world transforms along the parent chain.
- `SkinnedModel`: the `AnimationPlayer` class.
- `SkinningSample`: the game class, its frame handler and its draw count.

The arc-cosine is a parameter `acos: real -> real`. Every angle is therefore
`acos` of the dot product, exactly as the source computes it (without
normalising).

## Model

| member | source | states |
|---|---|---|
| Kinect.NewSkeletonArray | SkinningSample/SkinningSample.cs:81-82 | the array allocated for a frame is fresh and holds exactly the frame's skeletons, in order |
| Kinect.TrackedOf | SkinningSample/SkinningSample.cs:84-90 | the skeletons the handler uses are at most as many as it received, and every one is tracked |
| Kinect.TrackedOfAppend | SkinningSample/SkinningSample.cs:84-90 | filtering two runs of skeletons one after the other is filtering each in turn, so the tracked skeletons keep the order they were received in |
| Kinect.TrackedOfIdempotent | SkinningSample/SkinningSample.cs:84-90 | filtering the tracked skeletons again keeps all of them |
| Kinect.TrackedOfMembers | SkinningSample/SkinningSample.cs:84-90 | every tracked skeleton received is used: it appears in the tracked list |
| Kinect.TrackedAllOrFewer | SkinningSample/SkinningSample.cs:84-90 | every skeleton is used if and only if every skeleton is tracked |
| JointBinding.AddEntry | SkinningSample/SkinningSample.cs:198-219 | `Dictionary.Add` succeeds if and only if the key is new; it then adds exactly that key, with the given value, and keeps every other entry |
| JointMaps.DudeMapLoads | 3dKinectXnaDemo-deprecated/SkinnedModel/AnimationPlayer.cs:94-141 | building the "dude" map never adds a key twice, so it does not throw |
| JointMaps.DudeMapContents | 3dKinectXnaDemo-deprecated/SkinnedModel/AnimationPlayer.cs:94-141 | the "dude" map built entry by entry is the table `DudeMap` |
| JointMaps.DudeMapKeys | 3dKinectXnaDemo-deprecated/SkinnedModel/AnimationPlayer.cs:94-141 | the "dude" map binds every joint except the hands and the feet |
| JointMaps.DudeMapRange | 3dKinectXnaDemo-deprecated/SkinnedModel/AnimationPlayer.cs:94-141 | every bone the "dude" map names lies in 0..56 |
| JointMaps.DudeMapInjective | 3dKinectXnaDemo-deprecated/SkinnedModel/AnimationPlayer.cs:94-141 | no two joints of the "dude" map share a bone |
| JointMaps.TubeMapLoads | SkinningSample/SkinningSample.cs:196-222 | building the tube map never adds a key twice, so it does not throw |
| JointMaps.TubeMapContents | SkinningSample/SkinningSample.cs:196-222 | the tube map built entry by entry is the table `TubeMap` |
| JointMaps.TubeMapShape | SkinningSample/SkinningSample.cs:196-222 | the tube map binds every joint: the head to bone 0 and every other joint to bone 1 |
| JointMaps.TubeMapNotInjective | SkinningSample/SkinningSample.cs:196-222 | the tube map is not injective: several joints share bone 1 |
| JointMaps.SampleMapLoads | SkinningSample/SkinningSample.cs:224-246 | building the sample map never adds a key twice, so it does not throw |
| JointMaps.SampleMapContents | SkinningSample/SkinningSample.cs:224-246 | the sample map built entry by entry is the table `SampleMap` |
| JointMaps.SampleMapKeys | SkinningSample/SkinningSample.cs:224-246 | the sample map binds every joint except the hands and the feet |
| JointMaps.SampleMapInjective | SkinningSample/SkinningSample.cs:224-246 | no two joints of the sample map share a bone |
| PoseSolver.ConvertRealWorldPoint | 3dKinectXnaDemo-deprecated/SkinnedModel/AnimationPlayer.cs:683-693 | a sensor point is shifted by +1 in Y and by -1 in Z, at scale 1, and is not mirrored |
| PoseSolver.ConvertKeepsDifferences | 3dKinectXnaDemo-deprecated/SkinnedModel/AnimationPlayer.cs:683-693 | the conversion keeps the difference between two points: bone directions are those the sensor reports |
| PoseSolver.SegmentIgnoresOffset | 3dKinectXnaDemo-deprecated/SkinnedModel/AnimationPlayer.cs:683-693 | the side-plane and front-plane projections of a segment are the same on converted and on raw sensor points |
| PoseSolver.PoseIgnoresOffset | 3dKinectXnaDemo-deprecated/SkinnedModel/AnimationPlayer.cs:270-521 | every joint's signed side and front angles are the same on converted and on raw sensor points |
| BonePose.DrivenBound | 3dKinectXnaDemo-deprecated/SkinnedModel/AnimationPlayer.cs:613-616 | when a map binds every driven joint to a bone in range, every bone lookup the pose makes is defined |
| BonePose.TwoPreMultiplications | 3dKinectXnaDemo-deprecated/SkinnedModel/AnimationPlayer.cs:278-288 | pre-multiplying Y and then Z onto one bone is pre-multiplying Z times Y, and leaves every other bone alone |
| BonePose.Pose | 3dKinectXnaDemo-deprecated/SkinnedModel/AnimationPlayer.cs:176-521 | driving a sequence of joints keeps the number of bones |
| BonePose.PoseAt | 3dKinectXnaDemo-deprecated/SkinnedModel/AnimationPlayer.cs:176-521 | each bone ends as the compound rotation of the joints bound to it, in driving order, times its bind pose |
| BonePose.CompoundUnbound | 3dKinectXnaDemo-deprecated/SkinnedModel/AnimationPlayer.cs:613-616 | a bone that no driven joint names receives the identity rotation |
| BonePose.CompoundSingle | 3dKinectXnaDemo-deprecated/SkinnedModel/AnimationPlayer.cs:613-616 | a bone named by exactly one driven joint receives that joint's rotation alone |
| BonePose.CompoundAllBound | 3dKinectXnaDemo-deprecated/SkinnedModel/AnimationPlayer.cs:613-616 | a bone named by every driven joint receives all their rotations, the later ones leftmost |
| BonePose.PoseSnoc | 3dKinectXnaDemo-deprecated/SkinnedModel/AnimationPlayer.cs:613-616 | driving one more joint pre-multiplies its rotation onto its own bone and changes nothing else |
| BonePose.PoseUnbound | 3dKinectXnaDemo-deprecated/SkinnedModel/AnimationPlayer.cs:176-178 | a bone that no driven joint names keeps its bind pose |
| BonePose.PoseSingle | 3dKinectXnaDemo-deprecated/SkinnedModel/AnimationPlayer.cs:176-521 | a bone named by exactly one driven joint ends as that joint's rotation times its bind pose |
| BonePose.PoseAllBound | 3dKinectXnaDemo-deprecated/SkinnedModel/AnimationPlayer.cs:176-521 | a bone named by every driven joint ends as all their rotations times its bind pose |
| BonePose.DrivenJointsOnce | 3dKinectXnaDemo-deprecated/SkinnedModel/AnimationPlayer.cs:270-521 | twelve joints drive a bone, and no joint is driven twice |
| BonePose.HeadLast | 3dKinectXnaDemo-deprecated/SkinnedModel/AnimationPlayer.cs:503-521 | the head is driven last and only once |
| BonePose.DrivenPose | 3dKinectXnaDemo-deprecated/SkinnedModel/AnimationPlayer.cs:176-532 | the pose of an update has one transform per bind-pose bone |
| BonePose.DrivenPoseUndriven | 3dKinectXnaDemo-deprecated/SkinnedModel/AnimationPlayer.cs:176-178 | a bone outside the driven bones keeps its bind pose, with or without a skeleton |
| BonePose.DrivenPoseInjective | 3dKinectXnaDemo-deprecated/SkinnedModel/AnimationPlayer.cs:270-521 | with an injective map, each driven joint's bone is its own rotation times its bind pose |
| BonePose.BoneOfJoint | 3dKinectXnaDemo-deprecated/SkinnedModel/AnimationPlayer.cs:270-521 | with an injective map, a driven joint's bone ends as the Z rotation by its signed front angle times the Y rotation by its signed side angle times its bind pose |
| BonePose.LeftShoulderBone | 3dKinectXnaDemo-deprecated/SkinnedModel/AnimationPlayer.cs:270-289 | the left shoulder's bone turns by the angle from down-and-left to the upper arm, negated when the arm is closer to left than to down, and by the front angle from down, negated when the elbow's Z is below the shoulder's |
| BonePose.LeftElbowBone | 3dKinectXnaDemo-deprecated/SkinnedModel/AnimationPlayer.cs:291-307 | the left elbow's bone turns by the side angle between upper arm and forearm as it is and by the front angle negated, whatever the joints' positions |
| BonePose.LeftWristBone | 3dKinectXnaDemo-deprecated/SkinnedModel/AnimationPlayer.cs:309-325 | the left wrist's bone turns by the side angle between forearm and hand as it is and by the front angle negated, whatever the joints' positions |
| BonePose.RightShoulderBone | 3dKinectXnaDemo-deprecated/SkinnedModel/AnimationPlayer.cs:327-346 | the right shoulder's bone turns by the angle from down-and-right to the upper arm, negated when the arm is further from right than from down, and by the front angle from down, negated when the elbow's Z is below the shoulder's |
| BonePose.RightElbowBone | 3dKinectXnaDemo-deprecated/SkinnedModel/AnimationPlayer.cs:348-364 | the right elbow's bone turns by both angles between upper arm and forearm negated, whatever the joints' positions |
| BonePose.RightWristBone | 3dKinectXnaDemo-deprecated/SkinnedModel/AnimationPlayer.cs:366-382 | the right wrist's bone turns by the side angle between forearm and hand as it is and by the front angle negated, whatever the joints' positions |
| BonePose.LeftHipBone | 3dKinectXnaDemo-deprecated/SkinnedModel/AnimationPlayer.cs:384-402 | the left hip's bone turns by the thigh's angles from down, the side one negated when the knee's X exceeds the hip's and the front one when the knee's Z exceeds the hip's |
| BonePose.LeftKneeBone | 3dKinectXnaDemo-deprecated/SkinnedModel/AnimationPlayer.cs:404-422 | the left knee's bone turns by the angles between thigh and shin, the side one negated when the ankle's X exceeds the knee's and the front one when the ankle's Z exceeds the knee's |
| BonePose.RightHipBone | 3dKinectXnaDemo-deprecated/SkinnedModel/AnimationPlayer.cs:442-460 | the right hip's bone turns by the thigh's angles from down, the side one negated when the knee's X exceeds the hip's and the front one when the knee's Z exceeds the hip's |
| BonePose.RightKneeBone | 3dKinectXnaDemo-deprecated/SkinnedModel/AnimationPlayer.cs:462-478 | the right knee's bone turns by the angles between thigh and shin, the side one negated when the ankle's X exceeds the knee's and the front one when the ankle's Z exceeds the knee's |
| BonePose.SpineBone | 3dKinectXnaDemo-deprecated/SkinnedModel/AnimationPlayer.cs:485-501 | the spine's bone turns by the angles of the spine-to-shoulder-centre segment from up, the side one negated when the spine's X exceeds the shoulder centre's and the front one when the shoulder centre's Z exceeds the spine's |
| BonePose.HeadBone | 3dKinectXnaDemo-deprecated/SkinnedModel/AnimationPlayer.cs:503-521 | the head's bone turns by the neck's angles from up, the side one negated when the shoulder centre's X exceeds the head's and the front one when the head's Z exceeds the shoulder centre's |
| Hierarchy.PathToRoot | 3dKinectXnaDemo-deprecated/SkinnedModel/AnimationPlayer.cs:695-707 | when parents precede children, every bone's parent chain starts at the bone, ends at the root 0 and stays below the bone |
| Hierarchy.PathFollowsParents | 3dKinectXnaDemo-deprecated/SkinnedModel/AnimationPlayer.cs:695-707 | each step of that chain goes from a non-root bone to its parent |
| Hierarchy.WorldAlongPath | 3dKinectXnaDemo-deprecated/SkinnedModel/AnimationPlayer.cs:695-707 | a bone's world transform is the product of the local transforms along its chain to the root, times the root transform |
| Hierarchy.WorldDependsOnPath | 3dKinectXnaDemo-deprecated/SkinnedModel/AnimationPlayer.cs:695-707 | a bone's world transform depends only on the local transforms of the bones on its chain |
| SkinnedModel.DudeMapDrivesSafely | 3dKinectXnaDemo-deprecated/SkinnedModel/AnimationPlayer.cs:94-141 | the "dude" map's bone lookups are all in range if and only if the model has more than 55 bones |
| SkinnedModel.DudeStillBones | 3dKinectXnaDemo-deprecated/SkinnedModel/AnimationPlayer.cs:94-141 | with the "dude" map, the bones of the hip centre, the shoulder centre and both ankles keep their bind pose |
| SkinnedModel.AnimationPlayer.constructor | 3dKinectXnaDemo-deprecated/SkinnedModel/AnimationPlayer.cs:60-75 | the player takes the skinning data and the "dude" map; it gets three fresh, distinct arrays, one slot per bind-pose bone, all zero |
| SkinnedModel.AnimationPlayer.FromModel | 3dKinectXnaDemo-deprecated/SkinnedModel/AnimationPlayer.cs:77-91 | the player takes the model's skinning data and the given map; it gets three fresh arrays sized to the bind pose |
| SkinnedModel.AnimationPlayer.AddBoneMatrix | 3dKinectXnaDemo-deprecated/SkinnedModel/AnimationPlayer.cs:613-616 | the joint's bone becomes the matrix times its old value, and every other bone is unchanged |
| SkinnedModel.AnimationPlayer.DriveJoint | 3dKinectXnaDemo-deprecated/SkinnedModel/AnimationPlayer.cs:270-521 | one joint's side and front rotations advance the bones from the pose of the first k driven joints to that of the first k+1 |
| SkinnedModel.AnimationPlayer.DriveLeftArm | 3dKinectXnaDemo-deprecated/SkinnedModel/AnimationPlayer.cs:270-325 | the left-arm blocks drive the shoulder, the elbow and the wrist, in that order |
| SkinnedModel.AnimationPlayer.DriveRightArm | 3dKinectXnaDemo-deprecated/SkinnedModel/AnimationPlayer.cs:327-382 | the right-arm blocks continue the pose with the right shoulder, elbow and wrist |
| SkinnedModel.AnimationPlayer.DriveLeftLeg | 3dKinectXnaDemo-deprecated/SkinnedModel/AnimationPlayer.cs:384-440 | the left-leg blocks continue the pose with the hip and the knee; the foot angles are not applied |
| SkinnedModel.AnimationPlayer.DriveRightLeg | 3dKinectXnaDemo-deprecated/SkinnedModel/AnimationPlayer.cs:442-483 | the right-leg blocks continue the pose with the hip and the knee; the ankle block is empty |
| SkinnedModel.AnimationPlayer.DriveSpineAndHead | 3dKinectXnaDemo-deprecated/SkinnedModel/AnimationPlayer.cs:485-521 | the spine and head blocks complete the pose of all twelve driven joints |
| SkinnedModel.AnimationPlayer.UpdateBoneTransforms | 3dKinectXnaDemo-deprecated/SkinnedModel/AnimationPlayer.cs:176-532 | the bones become the bind pose, plus, when there is a skeleton, the pose it drives; the counter `ang` goes up by one |
| SkinnedModel.AnimationPlayer.UpdateWorldTransforms | 3dKinectXnaDemo-deprecated/SkinnedModel/AnimationPlayer.cs:695-707 | the root's world transform is its bone times the root transform; each later bone's is its bone times its parent's current world value; when parents precede children, each is the hierarchy's world transform |
| SkinnedModel.AnimationPlayer.UpdateSkinTransforms | 3dKinectXnaDemo-deprecated/SkinnedModel/AnimationPlayer.cs:709-715 | each skin transform is its bone's inverse bind pose times its world transform |
| SkinnedModel.AnimationPlayer.Update | 3dKinectXnaDemo-deprecated/SkinnedModel/AnimationPlayer.cs:165-173 | the player records the skeleton, poses the bones from it, propagates them from the identity root and recomputes every skin transform |
| SkinnedModel.AnimationPlayer.Position | 3dKinectXnaDemo-deprecated/SkinnedModel/AnimationPlayer.cs:558-561 | a joint's position is the converted position of that joint of the current skeleton, the same as the pose solver's positions: the sensor point shifted by +1 in Y and -1 in Z |
| SkinnedModel.AnimationPlayer.GetModelPosition | 3dKinectXnaDemo-deprecated/SkinnedModel/AnimationPlayer.cs:605-611 | the model position scales the hip centre's converted X and Z by -40 and keeps its converted Y |
| SkinningSample.TubeMapDrivesSafely | SkinningSample/SkinningSample.cs:196-222 | the tube map's bone lookups are all in range if and only if the model has more than one bone |
| SkinningSample.TwoBonePose | SkinningSample/SkinningSample.cs:196-222 | when the head is bound to bone 0 and every other driven joint to bone 1, bone 0 gets the head rotation, bone 1 gets all the others compounded, and the remaining bones keep their bind pose |
| SkinningSample.TubePose | SkinningSample/SkinningSample.cs:196-222 | with the tube map, bone 0 turns with the head, bone 1 with the other eleven driven joints compounded in driving order, and no other bone moves |
| SkinningSample.SampleMapDrivesSafely | SkinningSample/SkinningSample.cs:224-246 | the sample map binds every driven joint, and its lookups are in range if and only if the model has more than 36 bones |
| SkinningSample.SampleStillBones | SkinningSample/SkinningSample.cs:224-246 | with the sample map, the bones of the hip centre, the shoulder centre and both ankles keep their bind pose |
| SkinningSample.UpdateTracked | SkinningSample/SkinningSample.cs:84-90 | the player is updated once per tracked skeleton, in order; it stays unchanged when none is tracked and otherwise shows the last tracked one |
| SkinningSample.TrackSkeleton | SkinningSample/SkinningSample.cs:86-89 | one skeleton updates the player exactly when it is tracked; then the player shows it: bones posed from it, root world transform equal to its bone, world transforms that follow each preceding parent (the hierarchy's products when every parent precedes its child), and skin transforms from the world transforms |
| SkinningSample.SkinningSampleGame.LoadContent | SkinningSample/SkinningSample.cs:103-123 | content loads if and only if the model carries skinning data; on success, a fresh player is bound to the sample map and the model's data |
| SkinningSample.SkinningSampleGame.SkeletonFrameReady | SkinningSample/SkinningSample.cs:76-95 | a missing frame changes nothing; otherwise the game keeps a fresh copy of the frame's skeletons and updates the player once per tracked skeleton, in order, so that it shows the last tracked one |
| SkinningSample.SkinningSampleGame.Draw | SkinningSample/SkinningSample.cs:180-183 | the model is drawn once per tracked skeleton of the latest frame, and never before the first frame arrives |

## Left out

- Rendering is not modelled. That covers `Draw` of the player, `LookAt`, the vertex and effect setup, the camera, input, fonts and textures. The sample's `Draw` is modelled only as the number of draw calls it makes.
- Animation clips are not modelled: `StartClip`, the clip and time properties, and the commented-out keyframe code. They are not used on the Kinect path.
- The parameterless `AnimationPlayer()` constructor and `GetSkinTransforms` are not modelled. The first builds a player with no arrays; the second is an accessor.
- The "Left Arm v1" block computes two shoulder angles and applies neither, so it has no effect and is left out. The "Left Elbow v1" and "Left Wrist v1" blocks are entirely commented out. The left-foot angles are computed but never applied, so they are left out too.
- The elbow and wrist sign tests are commented out, so those angles keep a fixed sign: only the front angles are negated, and the right elbow's side angle as well.
- Console logging in `Update`, sensor setup (`setupKinect`), event wiring and threading are left out. The handler is a method called with the frame, and a missing frame is `None`.
- Floating point is modelled as `real`, and `acos` is a parameter. The model does not capture single-precision rounding, or the NaN that `Math.Acos` returns for the un-normalised dot products.
- `SkinningSample.UpdateTracked`: iterates over the frame copy's contents (`skeletons[..]`), not over the array object itself.
- Null skeleton entries in a frame are not modelled. The SDK fills every slot of the array.
- `3dKinectXnaDemo-deprecated/SkinningSample/SkinningSample.cs` is not part of this model. It is the older copy of the sample.
- `SkinnedModel.AnimationPlayer.Update`: takes a skeleton, not a null reference. Updating with null would throw at the log line, after the bind pose was copied.
- `SkinningSample.SkinningSampleGame.LoadContent`: returns `false` where the source throws `InvalidOperationException`. Content loading and `setupKinect` are left out.
- `SkinningSample.SkinningSampleGame.SkeletonFrameReady`: requires a player whose map's lookups are in range. A missing key or an out-of-range bone would throw in the source; the map lemmas show how many bones each map needs.
- The joints are driven arms first, then legs, then spine and head; the model drives them in that order.
- `ConvertRealWorldPoint` shifts Z by -1 and does not negate it.
- A driven joint missing from the player's map makes `jointMap[...]` throw `KeyNotFoundException`; the model excludes that by requiring the map to bind every driven joint.
- `SkinnedModel.AnimationPlayer.UpdateWorldTransforms`: requires a non-empty bind pose and a hierarchy that covers every bone with parents in range. An empty bind pose makes `boneTransforms[0]` throw `IndexOutOfRangeException` (AnimationPlayer.cs:698), and a short hierarchy or an out-of-range parent makes lines 703-705 throw it.
- `SkinnedModel.AnimationPlayer.UpdateSkinTransforms`: requires an inverse bind pose at least as long as the bones. A shorter one makes line 713 throw `IndexOutOfRangeException`.
- `SkinnedModel.AnimationPlayer.Update`: requires what the two methods above require, so it does not model the `IndexOutOfRangeException` thrown for an empty bind pose, a short or out-of-range hierarchy, or a short inverse bind pose.
- `SkinningSample.TrackSkeleton`: when a parent does not precede its child, the child's world transform is computed from the parent's value of the previous update; `Shows` does not carry that value, so it states world transforms only for bones whose parent precedes them.
- `SkinningSample.UpdateTracked`: the same holds for the world transforms of the last tracked skeleton.
- `SkinningSample.SkinningSampleGame.SkeletonFrameReady`: the same holds for the world transforms of the last tracked skeleton.
