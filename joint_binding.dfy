/**
 * Joint-to-bone maps and how they are built: a dictionary filled by
 * successive `Add` calls, each of which raises an exception when its key is
 * already present.
 */
module JointBinding {
  import opened Kinect

  datatype Option<T> = None | Some(value: T)

  /** A joint-to-bone dictionary: the bone index each bound joint drives. */
  type JointMap = map<JointType, int>

  /**
   * One `Add(key, value)` call on the dictionary `d`; `None` stands for the
   * exception, raised when `key` is already present and then propagated by
   * every later call.
   */
  function Add<K>(d: Option<map<K, int>>, key: K, value: int): Option<map<K, int>> {
    if d.Some? && key !in d.value then Some(d.value[key := value]) else None
  }

  /**
   * A call succeeds exactly when its key is new; it then adds that key with
   * its value and keeps every earlier entry.
   */
  lemma AddEntry(d: Option<JointMap>, key: JointType, value: int)
    ensures Add(d, key, value).Some? <==> d.Some? && key !in d.value
    ensures Add(d, key, value).Some? ==>
      && Add(d, key, value).value.Keys == d.value.Keys + {key}
      && Add(d, key, value).value[key] == value
      && forall k :: k in d.value ==> Add(d, key, value).value[k] == d.value[k]
  {
  }

  /** No two joints drive the same bone. */
  predicate Injective(m: JointMap) {
    forall j, j' :: j in m && j' in m && j != j' ==> m[j] != m[j']
  }

  /** A map that some map from bones back to joints undoes is injective. */
  lemma InvertibleInjective(m: JointMap, inverse: map<int, JointType>)
    requires forall j :: j in m ==> m[j] in inverse && inverse[m[j]] == j
    ensures Injective(m)
  {
  }
}
