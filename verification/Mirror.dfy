/**
  What a subscriber can rebuild (internal/eventstream/informer_impl.go): starting from the
  cached objects of its shard and replaying its events, it keeps a mirror of the cache up to
  equal skeletons - although modifications that leave the skeleton alone are not announced.
  A list is not announced at all.
 */
module Mirror {
  import opened Common
  import opened Resources
  import opened ResourceCache
  import opened Subscriber
  import opened Informer

  function ApplyEvent(m: Flat, e: Event): Flat {
    match e
    case AddEvent(ns, name, now) => m[(ns, name) := now]
    case UpdateEvent(ns, name, _, now) => m[(ns, name) := now]
    case DeleteEvent(ns, name, _) => m - {(ns, name)}
  }

  function Replay(m: Flat, events: seq<Event>): Flat {
    if events == [] then m else ApplyEvent(Replay(m, events[..|events| - 1]), events[|events| - 1])
  }

  function Owned(m: Flat, shard: Shard): Flat {
    map k | k in m && Owns(shard, k.0) :: m[k]
  }

  ghost predicate SameSkeletons(a: Flat, b: Flat) {
    a.Keys == b.Keys && forall k :: k in a ==> a[k].skeleton == b[k].skeleton
  }

  lemma {:induction false} ReplayConcat(m: Flat, a: seq<Event>, b: seq<Event>)
    ensures Replay(m, a + b) == Replay(Replay(m, a), b)
  {
    if b == [] {
      assert a + b == a;
    } else {
      assert (a + b)[..|a + b| - 1] == a + b[..|b| - 1];
      ReplayConcat(m, a, b[..|b| - 1]);
    }
  }

  lemma PutOnBoth(mirror: Flat, m: Flat, r: Resource, shard: Shard)
    requires SameSkeletons(mirror, Owned(m, shard))
    ensures SameSkeletons(if Owns(shard, r.ns) then mirror[KeyOf(r) := r] else mirror, Owned(PutOne(m, r), shard))
    ensures KeyOf(r) in m && m[KeyOf(r)].skeleton == r.skeleton ==> SameSkeletons(mirror, Owned(PutOne(m, r), shard))
  {}

  lemma DeleteOnBoth(mirror: Flat, m: Flat, k: Key, shard: Shard)
    requires SameSkeletons(mirror, Owned(m, shard))
    ensures SameSkeletons(if Owns(shard, k.0) then mirror - {k} else mirror, Owned(m - {k}, shard))
    ensures k !in m ==> m - {k} == m
  {}

  lemma ReplayOne(m: Flat, e: Event)
    ensures Replay(m, [e]) == ApplyEvent(m, e)
  {
    assert [e][..0] == [];
  }

  lemma ReplayNone(m: Flat)
    ensures Replay(m, []) == m
  {}

  /** One line: the event that is sent, if any, moves the mirror as the line moves the cache. */
  lemma MirrorStep(mirror: Flat, s: CacheState, line: Line, shard: Shard)
    requires SameSkeletons(mirror, Owned(s.view, shard))
    ensures SameSkeletons(Replay(mirror, Sent(s.view, line, shard)), Owned(CacheAfter(s, line).view, shard))
  {
    hide SkeletonChanged, SameSkeletons, Owned, Owns, Replay;
    if line.ObjectLine? && line.item.Some? {
      var r := line.item.value;
      PutOnBoth(mirror, s.view, r, shard);
      DeleteOnBoth(mirror, s.view, KeyOf(r), shard);
      if KeyOf(r) in s.view {
        SkeletonChangedIsProjection(s.view[KeyOf(r)], r);
      }
    }
    var e := EventOf(s.view, line);
    ReplayNone(mirror);
    if e.Some? {
      ReplayOne(mirror, e.value);
    }
  }

  /** Any sequence of watch lines. */
  lemma {:induction false} MirrorFollows(mirror: Flat, v: View, lines: seq<Line>, shard: Shard)
    requires SameSkeletons(mirror, Owned(v.cache.view, shard))
    ensures SameSkeletons(Replay(mirror, AllSent(v, lines, shard)), Owned(AfterLines(v, lines).cache.view, shard))
  {
    hide SameSkeletons, Sent, CacheAfter;
    if lines != [] {
      var n := |lines| - 1;
      var before := AfterLines(v, lines[..n]);
      MirrorFollows(mirror, v, lines[..n], shard);
      ReplayConcat(mirror, AllSent(v, lines[..n], shard), Sent(before.cache.view, lines[n], shard));
      MirrorStep(Replay(mirror, AllSent(v, lines[..n], shard)), before.cache, lines[n], shard);
    }
  }

  /** Each first part of what is sent is what a first part of the lines sends. */
  lemma {:induction false} SentUpTo(v: View, lines: seq<Line>, shard: Shard, k: nat) returns (n: nat)
    requires k <= |AllSent(v, lines, shard)|
    ensures n <= |lines| && AllSent(v, lines[..n], shard) == AllSent(v, lines, shard)[..k]
  {
    var all := AllSent(v, lines, shard);
    if k == |all| {
      n := |lines|;
      assert lines[..n] == lines && all[..k] == all;
    } else {
      var front := lines[..|lines| - 1];
      assert k <= |AllSent(v, front, shard)|;
      n := SentUpTo(v, front, shard, k);
      assert front[..n] == lines[..n];
      assert all[..k] == AllSent(v, front, shard)[..k];
    }
  }

  /** A subscription that has lost nothing: what it has handled rebuilds the cache as it was
      after some first part of the lines, and with the events still queued, as it is now. */
  lemma HandledIsAnEarlierCache(sub: Subscription<Event>, v: View, lines: seq<Line>, shard: Shard) returns (n: nat)
    requires sub.Valid() && sub.dropped + sub.late == 0 && sub.offered == AllSent(v, lines, shard)
    ensures n <= |lines|
    ensures SameSkeletons(Replay(Owned(v.cache.view, shard), sub.handled),
                          Owned(AfterLines(v, lines[..n]).cache.view, shard))
    ensures SameSkeletons(Replay(Owned(v.cache.view, shard), sub.handled + sub.inflight),
                          Owned(AfterLines(v, lines).cache.view, shard))
  {
    sub.InOrder();
    hide StandsAt, IsSubsequence;
    var mirror := Owned(v.cache.view, shard);
    n := SentUpTo(v, lines, shard, |sub.handled|);
    assert (sub.handled + sub.inflight)[..|sub.handled|] == sub.handled;
    MirrorFollows(mirror, v, lines[..n], shard);
    MirrorFollows(mirror, v, lines, shard);
  }

  // ----- lists

  ghost predicate NoKeyTwice(items: seq<Option<Resource>>) {
    forall i, j :: 0 <= i < j < |items| && items[i].Some? && items[j].Some? ==>
      KeyOf(items[i].value) != KeyOf(items[j].value)
  }

  /** What the list brings for the shard is in the cache already, with the same skeleton. */
  ghost predicate NoNews(m: Flat, items: seq<Option<Resource>>, shard: Shard) {
    forall i :: 0 <= i < |items| && items[i].Some? && Owns(shard, items[i].value.ns) ==>
      KeyOf(items[i].value) in m && m[KeyOf(items[i].value)].skeleton == items[i].value.skeleton
  }

  /** A list sends no events, so a mirror survives it exactly when the list brings the shard
      nothing new. */
  lemma ListKeepsMirrorIff(mirror: Flat, m: Flat, items: seq<Option<Resource>>, shard: Shard)
    requires SameSkeletons(mirror, Owned(m, shard)) && NoKeyTwice(items)
    ensures SameSkeletons(mirror, Owned(PutAll(m, items), shard)) <==> NoNews(m, items, shard)
  {
    hide PutAll;
    var all := PutAll(m, items);
    forall i | 0 <= i < |items| && items[i].Some? ensures Find(all, KeyOf(items[i].value)) == items[i] {
      LastItemIsStored(m, items, i);
    }
    if NoNews(m, items, shard) {
      forall k: Key | Owns(shard, k.0) ensures (k in all <==> k in m) && (k in m ==> all[k].skeleton == m[k].skeleton) {
        if i :| 0 <= i < |items| && items[i].Some? && KeyOf(items[i].value) == k {
          assert Find(all, k) == items[i];
        } else {
          OtherKeysStay(m, items, k);
          assert Find(all, k) == Find(m, k);
        }
      }
    }
    if SameSkeletons(mirror, Owned(all, shard)) {
      forall i | 0 <= i < |items| && items[i].Some? && Owns(shard, items[i].value.ns)
        ensures KeyOf(items[i].value) in m && m[KeyOf(items[i].value)].skeleton == items[i].value.skeleton
      {
        assert KeyOf(items[i].value) in Owned(all, shard);
        assert KeyOf(items[i].value) in mirror.Keys;
      }
    }
  }
}
