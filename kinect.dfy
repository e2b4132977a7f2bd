/**
 * What the motion sensor hands to the application: the twenty tracked joint
 * types, skeletons with a tracking state, and skeleton frames.
 */
module Kinect {
  import opened Geometry

  datatype JointType =
    | HipCenter | Spine | ShoulderCenter | Head
    | ShoulderLeft | ElbowLeft | WristLeft | HandLeft
    | ShoulderRight | ElbowRight | WristRight | HandRight
    | HipLeft | KneeLeft | AnkleLeft | FootLeft
    | HipRight | KneeRight | AnkleRight | FootRight

  datatype SkeletonTrackingState = NotTracked | PositionOnly | Tracked

  /** One detected person: a tracking state and a position for every joint type. */
  datatype Skeleton = Skeleton(trackingState: SkeletonTrackingState, joints: JointType -> SkeletonPoint)

  /** One frame of skeleton data; the sensor reports a fixed number of skeleton slots. */
  datatype SkeletonFrame = SkeletonFrame(skeletonData: seq<Skeleton>) {
    function SkeletonArrayLength(): nat {
      |skeletonData|
    }
  }

  /**
   * A new array of the frame's length holding the frame's skeletons, as
   * the handler allocates it and the frame copies its data into it.
   */
  method NewSkeletonArray(frame: SkeletonFrame) returns (skeletons: array<Skeleton>)
    ensures fresh(skeletons) && skeletons[..] == frame.skeletonData
  {
    var data := frame.skeletonData;
    skeletons := new Skeleton[frame.SkeletonArrayLength()](i requires 0 <= i < |data| => data[i]);
    assert skeletons[..] == data;
  }

  predicate IsTracked(s: Skeleton) {
    s.trackingState == Tracked
  }

  /** The tracked skeletons of `ss`, in order. */
  function TrackedOf(ss: seq<Skeleton>): (r: seq<Skeleton>)
    ensures |r| <= |ss|
    ensures forall k :: 0 <= k < |r| ==> IsTracked(r[k])
  {
    if ss == [] then []
    else TrackedOf(ss[..|ss| - 1]) + (if IsTracked(ss[|ss| - 1]) then [ss[|ss| - 1]] else [])
  }

  /** Filtering distributes over appending one more skeleton. */
  lemma {:induction false} TrackedOfSnoc(ss: seq<Skeleton>, s: Skeleton)
    ensures TrackedOf(ss + [s]) == TrackedOf(ss) + (if IsTracked(s) then [s] else [])
  {
    assert (ss + [s])[..|ss + [s]| - 1] == ss;
  }

  /** Filtering two runs of skeletons one after the other filters each in turn: order is kept. */
  lemma {:induction false} TrackedOfAppend(a: seq<Skeleton>, b: seq<Skeleton>)
    ensures TrackedOf(a + b) == TrackedOf(a) + TrackedOf(b)
    decreases |b|
  {
    if b != [] {
      var front := b[..|b| - 1];
      var last := b[|b| - 1];
      assert b == front + [last];
      assert a + b == (a + front) + [last];
      TrackedOfAppend(a, front);
      TrackedOfSnoc(a + front, last);
      TrackedOfSnoc(front, last);
    } else {
      assert a + b == a;
    }
  }

  /** Filtering a second time changes nothing. */
  lemma {:induction false} TrackedOfIdempotent(ss: seq<Skeleton>)
    ensures TrackedOf(TrackedOf(ss)) == TrackedOf(ss)
  {
    if ss != [] {
      var front := ss[..|ss| - 1];
      var last := ss[|ss| - 1];
      TrackedOfIdempotent(front);
      TrackedOfAppend(TrackedOf(front), if IsTracked(last) then [last] else []);
      if IsTracked(last) {
        assert [last][..0] == [];
        assert TrackedOf([last]) == TrackedOf([last][..0]) + [last];
      }
    }
  }

  /** A skeleton is kept by the filter exactly when it is tracked. */
  lemma {:induction false} TrackedOfMembers(ss: seq<Skeleton>, k: nat)
    requires k < |ss|
    ensures IsTracked(ss[k]) ==> exists t :: 0 <= t < |TrackedOf(ss)| && TrackedOf(ss)[t] == ss[k]
  {
    var front := ss[..|ss| - 1];
    if k < |ss| - 1 {
      TrackedOfMembers(front, k);
      assert front[k] == ss[k];
      if IsTracked(ss[k]) {
        var t :| 0 <= t < |TrackedOf(front)| && TrackedOf(front)[t] == ss[k];
        assert TrackedOf(ss)[t] == ss[k];
      }
    } else {
      if IsTracked(ss[k]) {
        assert TrackedOf(ss)[|TrackedOf(ss)| - 1] == ss[k];
      }
    }
  }

  /** The filter drops nothing exactly when every skeleton is tracked. */
  lemma {:induction false} TrackedAllOrFewer(ss: seq<Skeleton>)
    ensures |TrackedOf(ss)| == |ss| <==> forall i :: 0 <= i < |ss| ==> IsTracked(ss[i])
  {
    if ss != [] {
      var front := ss[..|ss| - 1];
      TrackedAllOrFewer(front);
      assert forall i :: 0 <= i < |front| ==> front[i] == ss[i];
    }
  }
}
