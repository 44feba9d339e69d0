/**
  The objects the informer keeps (internal/eventstream/resource.go): identity, version, and
  the skeleton that decides whether a change is worth an event.
 */
module Resources {
  import opened Common

  type Key = (string, string)

  datatype Skeleton = Skeleton(
    uid: string, generation: int, phase: string, readyReplicas: Option<int>, replicas: Option<int>,
    labels: map<string, string>, annotations: map<string, string>, deleting: bool)

  /** `version` stands for the resourceVersion, and with it for all that the skeleton leaves
      out. */
  datatype Resource = Resource(ns: string, name: string, version: nat, skeleton: Skeleton)

  function KeyOf(r: Resource): Key {
    (r.ns, r.name)
  }

  type Flat = map<Key, Resource>

  predicate StringMapEqual(a: map<string, string>, b: map<string, string>) {
    |a| == |b| && forall k :: k in a ==> k in b && b[k] == a[k]
  }

  predicate SkeletonChanged(was: Option<Resource>, now: Option<Resource>) {
    if was.None? || now.None? then was != now
    else
      var a, b := was.value.skeleton, now.value.skeleton;
      || a.uid != b.uid
      || a.generation != b.generation
      || a.phase != b.phase
      || a.readyReplicas != b.readyReplicas
      || a.replicas != b.replicas
      || !StringMapEqual(a.labels, b.labels)
      || !StringMapEqual(a.annotations, b.annotations)
      || a.deleting != b.deleting
  }

  /** Comparing sizes and then one direction is enough to compare maps. */
  lemma StringMapEqualIsEqual(a: map<string, string>, b: map<string, string>)
    ensures StringMapEqual(a, b) <==> a == b
  {
    if StringMapEqual(a, b) {
      SubsetOfSameSize(a.Keys, b.Keys);
    }
  }

  lemma SubsetOfSameSize<T>(a: set<T>, b: set<T>)
    requires a <= b && |a| == |b|
    ensures a == b
  {
    assert |b - a| == |b| - |a|;
    assert b == a + (b - a);
  }

  /** Two objects have changed skeletons exactly when the skeletons differ: having the same
      skeleton is an equivalence. */
  lemma SkeletonChangedIsProjection(a: Resource, b: Resource)
    ensures SkeletonChanged(Some(a), Some(b)) <==> a.skeleton != b.skeleton
  {
    StringMapEqualIsEqual(a.skeleton.labels, b.skeleton.labels);
    StringMapEqualIsEqual(a.skeleton.annotations, b.skeleton.annotations);
  }
}
