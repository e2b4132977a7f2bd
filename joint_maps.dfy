/**
 * The three joint maps of the program: the "dude" model's, which the
 * animation player loads, and the sample's own and "tube" maps. Each is a
 * dictionary filled by one `Add` call per line.
 */
module JointMaps {
  import opened Kinect
  import opened JointBinding

  /** The joint map of the "dude" model, one `Add` call per bound joint. */
  function LoadJointMapDude(): Option<JointMap> {
    var jointMap := Some(map[]);
    var jointMap := Add(jointMap, HipCenter, 1);
    var jointMap := Add(jointMap, Spine, 3);
    var jointMap := Add(jointMap, ShoulderCenter, 6);
    var jointMap := Add(jointMap, Head, 7);
    var jointMap := Add(jointMap, ShoulderLeft, 13);
    var jointMap := Add(jointMap, ElbowLeft, 14);
    var jointMap := Add(jointMap, WristLeft, 15);
    var jointMap := Add(jointMap, ShoulderRight, 32);
    var jointMap := Add(jointMap, ElbowRight, 33);
    var jointMap := Add(jointMap, WristRight, 34);
    var jointMap := Add(jointMap, HipLeft, 50);
    var jointMap := Add(jointMap, KneeLeft, 51);
    var jointMap := Add(jointMap, AnkleLeft, 52);
    var jointMap := Add(jointMap, HipRight, 54);
    var jointMap := Add(jointMap, KneeRight, 55);
    var jointMap := Add(jointMap, AnkleRight, 56);
    jointMap
  }

  /** The entries of the "dude" map, as its comments name the bones. */
  const DudeMap: JointMap := map[
    HipCenter := 1, Spine := 3, ShoulderCenter := 6, Head := 7,
    ShoulderLeft := 13, ElbowLeft := 14, WristLeft := 15,
    ShoulderRight := 32, ElbowRight := 33, WristRight := 34,
    HipLeft := 50, KneeLeft := 51, AnkleLeft := 52,
    HipRight := 54, KneeRight := 55, AnkleRight := 56]

  /** None of the `Add` calls of the "dude" map throws: its sixteen keys are distinct. */
  lemma DudeMapLoads()
    ensures LoadJointMapDude().Some?
  {
  }

  /** The "dude" map holds exactly the entries of its `Add` calls. */
  lemma DudeMapContents()
    ensures LoadJointMapDude() == Some(DudeMap)
  {
    DudeMapLoads();
    assert LoadJointMapDude().value == DudeMap;
  }

  /** The "dude" map binds sixteen joints: all but the hands and feet. */
  lemma DudeMapKeys(j: JointType)
    ensures j in DudeMap <==> j !in {HandLeft, HandRight, FootLeft, FootRight}
  {
  }

  /** The "dude" map binds no joint above bone 56. */
  lemma DudeMapRange(j: JointType)
    requires j in DudeMap
    ensures 0 <= DudeMap[j] <= 56
  {
  }

  /** The "dude" map binds no two joints to the same bone. */
  lemma DudeMapInjective()
    ensures Injective(DudeMap)
  {
    var inverse := map[
      1 := HipCenter, 3 := Spine, 6 := ShoulderCenter, 7 := Head,
      13 := ShoulderLeft, 14 := ElbowLeft, 15 := WristLeft,
      32 := ShoulderRight, 33 := ElbowRight, 34 := WristRight,
      50 := HipLeft, 51 := KneeLeft, 52 := AnkleLeft,
      54 := HipRight, 55 := KneeRight, 56 := AnkleRight];
    assert forall j :: j in DudeMap ==> DudeMap[j] in inverse && inverse[DudeMap[j]] == j;
    InvertibleInjective(DudeMap, inverse);
  }

  /** The joint map of the "tube" model, one `Add` call per joint type. */
  function LoadJointMapTube(): Option<JointMap> {
    var jointMap := Some(map[]);
    var jointMap := Add(jointMap, Head, 0);
    var jointMap := Add(jointMap, HipCenter, 1);
    var jointMap := Add(jointMap, AnkleRight, 1);
    var jointMap := Add(jointMap, AnkleLeft, 1);
    var jointMap := Add(jointMap, ElbowLeft, 1);
    var jointMap := Add(jointMap, ElbowRight, 1);
    var jointMap := Add(jointMap, FootLeft, 1);
    var jointMap := Add(jointMap, FootRight, 1);
    var jointMap := Add(jointMap, HandLeft, 1);
    var jointMap := Add(jointMap, HandRight, 1);
    var jointMap := Add(jointMap, HipLeft, 1);
    var jointMap := Add(jointMap, HipRight, 1);
    var jointMap := Add(jointMap, KneeLeft, 1);
    var jointMap := Add(jointMap, KneeRight, 1);
    var jointMap := Add(jointMap, ShoulderCenter, 1);
    var jointMap := Add(jointMap, ShoulderLeft, 1);
    var jointMap := Add(jointMap, ShoulderRight, 1);
    var jointMap := Add(jointMap, Spine, 1);
    var jointMap := Add(jointMap, WristLeft, 1);
    var jointMap := Add(jointMap, WristRight, 1);
    jointMap
  }

  /** The joint map of the sample's own model, one `Add` call per bound joint, all offset by `i`. */
  function LoadJointMap(): Option<JointMap> {
    var jointMap := Some(map[]);
    var i := 0;
    var jointMap := Add(jointMap, HipCenter, 2 + i);
    var jointMap := Add(jointMap, Spine, 8 + i);
    var jointMap := Add(jointMap, ShoulderCenter, 9 + i);
    var jointMap := Add(jointMap, Head, 10 + i);
    var jointMap := Add(jointMap, ShoulderLeft, 11 + i);
    var jointMap := Add(jointMap, ElbowLeft, 12 + i);
    var jointMap := Add(jointMap, WristLeft, 14 + i);
    var jointMap := Add(jointMap, ShoulderRight, 22 + i);
    var jointMap := Add(jointMap, ElbowRight, 23 + i);
    var jointMap := Add(jointMap, WristRight, 25 + i);
    var jointMap := Add(jointMap, HipLeft, 6 + i);
    var jointMap := Add(jointMap, KneeLeft, 5 + i);
    var jointMap := Add(jointMap, AnkleLeft, 39 + i);
    var jointMap := Add(jointMap, HipRight, 36 + i);
    var jointMap := Add(jointMap, KneeRight, 35 + i);
    var jointMap := Add(jointMap, AnkleRight, 43 + i);
    jointMap
  }

  /** The entries of the "tube" map: the head drives bone 0, every other joint bone 1. */
  const TubeMap: JointMap := map[
    Head := 0, HipCenter := 1, AnkleRight := 1, AnkleLeft := 1,
    ElbowLeft := 1, ElbowRight := 1, FootLeft := 1, FootRight := 1,
    HandLeft := 1, HandRight := 1, HipLeft := 1, HipRight := 1,
    KneeLeft := 1, KneeRight := 1, ShoulderCenter := 1, ShoulderLeft := 1,
    ShoulderRight := 1, Spine := 1, WristLeft := 1, WristRight := 1]

  /** The entries of the sample's map. */
  const SampleMap: JointMap := map[
    HipCenter := 2, Spine := 8, ShoulderCenter := 9, Head := 10,
    ShoulderLeft := 11, ElbowLeft := 12, WristLeft := 14,
    ShoulderRight := 22, ElbowRight := 23, WristRight := 25,
    HipLeft := 6, KneeLeft := 5, AnkleLeft := 39,
    HipRight := 36, KneeRight := 35, AnkleRight := 43]

  /** None of the `Add` calls of the "tube" map throws: its twenty keys are distinct. */
  lemma TubeMapLoads()
    ensures LoadJointMapTube().Some?
  {
  }

  /** The "tube" map holds exactly the entries of its `Add` calls. */
  lemma TubeMapContents()
    ensures LoadJointMapTube() == Some(TubeMap)
  {
    TubeMapLoads();
    assert LoadJointMapTube().value == TubeMap;
  }

  /** The "tube" map binds every joint type: the head to bone 0 and the rest to bone 1. */
  lemma TubeMapShape(j: JointType)
    ensures j in TubeMap && TubeMap[j] == if j == Head then 0 else 1
  {
  }

  /** Several joints share bone 1 in the "tube" map. */
  lemma TubeMapNotInjective()
    ensures !Injective(TubeMap)
  {
    assert TubeMap[Spine] == TubeMap[HipCenter];
  }

  /** None of the `Add` calls of the sample's map throws: its sixteen keys are distinct. */
  lemma SampleMapLoads()
    ensures LoadJointMap().Some?
  {
  }

  /** The sample's map holds exactly the entries of its `Add` calls. */
  lemma SampleMapContents()
    ensures LoadJointMap() == Some(SampleMap)
  {
    SampleMapLoads();
    assert LoadJointMap().value == SampleMap;
  }

  /** The sample's map binds sixteen joints: all but the hands and feet. */
  lemma SampleMapKeys(j: JointType)
    ensures j in SampleMap <==> j !in {HandLeft, HandRight, FootLeft, FootRight}
  {
  }

  /** The sample's map binds no two joints to the same bone. */
  lemma SampleMapInjective()
    ensures Injective(SampleMap)
  {
    var inverse := map[
      2 := HipCenter, 8 := Spine, 9 := ShoulderCenter, 10 := Head,
      11 := ShoulderLeft, 12 := ElbowLeft, 14 := WristLeft,
      22 := ShoulderRight, 23 := ElbowRight, 25 := WristRight,
      6 := HipLeft, 5 := KneeLeft, 39 := AnkleLeft,
      36 := HipRight, 35 := KneeRight, 43 := AnkleRight];
    assert forall j :: j in SampleMap ==> SampleMap[j] in inverse && inverse[SampleMap[j]] == j;
    InvertibleInjective(SampleMap, inverse);
  }
}
