/**
 * The skeleton hierarchy: every bone but the root names a parent bone, and a
 * bone's world transform is its local transform times its parent's world
 * transform.
 */
module Hierarchy {
  import opened Geometry

  /**
   * The hierarchy names, for every bone `b` with `1 <= b < n`, a parent that
   * indexes one of the `n` bones: the propagation loop reads no index out of
   * range.
   */
  predicate ParentsInRange(parent: seq<int>, n: int) {
    |parent| >= n && forall b :: 1 <= b < n ==> 0 <= parent[b] < n
  }

  /**
   * Every parent comes before its child, so that an in-order pass has always
   * computed a parent's world transform before it reads it.
   */
  predicate ParentsPrecede(parent: seq<int>, n: int) {
    |parent| >= n && forall b :: 1 <= b < n ==> 0 <= parent[b] < b
  }

  /**
   * The world transform of bone `b`: the root's local transform times `root`,
   * and for any other bone its local transform times its parent's world
   * transform.
   */
  function WorldOf(local: seq<Matrix>, parent: seq<int>, root: Matrix, b: int): Matrix
    requires ParentsPrecede(parent, |local|) && 0 <= b < |local|
    decreases b
  {
    if b == 0 then Mul(local[0], root)
    else Mul(local[b], WorldOf(local, parent, root, parent[b]))
  }

  /** The bones from `b` up to the root, `b` first and the root bone 0 last. */
  function PathToRoot(parent: seq<int>, b: int): (path: seq<int>)
    requires ParentsPrecede(parent, b + 1) && 0 <= b
    ensures |path| >= 1 && path[0] == b && path[|path| - 1] == 0
    ensures forall k :: 0 <= k < |path| ==> 0 <= path[k] <= b
    decreases b
  {
    if b == 0 then [0] else [b] + PathToRoot(parent, parent[b])
  }

  /**
   * The path is a chain of parent links: each bone on it but the last is not
   * the root, and the next bone is its parent.
   */
  lemma {:induction false} PathFollowsParents(parent: seq<int>, b: int, k: int)
    requires ParentsPrecede(parent, b + 1) && 0 <= b
    requires 0 <= k < |PathToRoot(parent, b)| - 1
    ensures PathToRoot(parent, b)[k] >= 1
    ensures PathToRoot(parent, b)[k + 1] == parent[PathToRoot(parent, b)[k]]
    decreases b
  {
    if k > 0 {
      var up := PathToRoot(parent, parent[b]);
      assert PathToRoot(parent, b)[1..] == up;
      PathFollowsParents(parent, parent[b], k - 1);
    }
  }

  /** The product of the local transforms of the bones of `path`, the first leftmost. */
  function ProductAlong(local: seq<Matrix>, path: seq<int>): Matrix
    requires forall k :: 0 <= k < |path| ==> 0 <= path[k] < |local|
  {
    if path == [] then Identity else Mul(local[path[0]], ProductAlong(local, path[1..]))
  }

  /**
   * A bone's world transform is the product of the local transforms on its
   * path to the root, from the bone itself up to the root, times `root`.
   */
  lemma {:induction false} WorldAlongPath(local: seq<Matrix>, parent: seq<int>, root: Matrix, b: int)
    requires ParentsPrecede(parent, |local|) && 0 <= b < |local|
    ensures WorldOf(local, parent, root, b) == Mul(ProductAlong(local, PathToRoot(parent, b)), root)
    decreases b
  {
    if b == 0 {
      assert PathToRoot(parent, 0) == [0];
      assert ProductAlong(local, [0]) == Mul(local[0], ProductAlong(local, []));
    } else {
      var up := PathToRoot(parent, parent[b]);
      var path := [b] + up;
      assert path == PathToRoot(parent, b);
      assert path[1..] == up;
      WorldAlongPath(local, parent, root, parent[b]);
      var rest := ProductAlong(local, up);
      assert ProductAlong(local, path) == Mul(local[b], rest);
      MulAssociates(local[b], rest, root);
    }
  }

  /**
   * A bone's world transform depends on the local transforms of its path to
   * the root only: changing the local transform of any other bone leaves it.
   */
  lemma {:induction false} WorldDependsOnPath(local: seq<Matrix>, local': seq<Matrix>, parent: seq<int>, root: Matrix, b: int)
    requires ParentsPrecede(parent, |local|) && |local'| == |local| && 0 <= b < |local|
    requires forall k :: 0 <= k < |PathToRoot(parent, b)| ==> local[PathToRoot(parent, b)[k]] == local'[PathToRoot(parent, b)[k]]
    ensures WorldOf(local, parent, root, b) == WorldOf(local', parent, root, b)
    decreases b
  {
    var path := PathToRoot(parent, b);
    assert local[path[0]] == local'[path[0]];
    if b != 0 {
      var up := PathToRoot(parent, parent[b]);
      assert path[1..] == up;
      forall k | 0 <= k < |up| ensures local[up[k]] == local'[up[k]] {
        assert up[k] == path[k + 1];
      }
      WorldDependsOnPath(local, local', parent, root, parent[b]);
    }
  }
}
