/**
  The cache's size counter over whole histories (internal/eventstream/cache.go). PutBulk
  counts an item whose namespace is cached once per item, against the old inner map, so a
  batch that repeats a new name counts it twice. The counter is never too small; it is
  exact as long as no such batch has been written, and never again after one.
 */
module CacheCounter {
  import opened Common
  import opened Resources
  import opened ResourceCache

  datatype Op =
    | OpPut(r: Option<Resource>)
    | OpPutBulk(items: seq<Option<Resource>>)
    | OpDelete(ns: string, name: string)

  function After(s: CacheState, op: Op): CacheState {
    match op
    case OpPut(r) => AfterPut(s, r)
    case OpPutBulk(items) => AfterPutBulk(s, items)
    case OpDelete(ns, name) => AfterDelete(s, ns, name)
  }

  ghost predicate IsRun(states: seq<CacheState>, ops: seq<Op>) {
    && |states| == |ops| + 1
    && states[0] == CacheState(map[], 0)
    && forall i :: 0 <= i < |ops| ==> states[i + 1] == After(states[i], ops[i])
  }

  /** By how much the counter exceeds the number of entries. */
  function Drift(s: CacheState): int {
    s.size - |s.view|
  }

  /** The batch repeats a name that is new in a namespace that is cached. */
  ghost predicate Repeats(m: Flat, items: seq<Option<Resource>>) {
    exists i, j :: 0 <= i < j < |items| && i in Counted(m, items) && j in Counted(m, items)
                   && KeyOf(items[i].value) == KeyOf(items[j].value)
  }

  function CountedKeys(m: Flat, items: seq<Option<Resource>>, at: set<int>): set<Key>
    requires at <= Counted(m, items)
  {
    set j | j in at :: KeyOf(items[j].value)
  }

  ghost predicate AllDifferent(m: Flat, items: seq<Option<Resource>>, at: set<int>)
    requires at <= Counted(m, items)
  {
    forall i, j :: i in at && j in at && i != j ==> KeyOf(items[i].value) != KeyOf(items[j].value)
  }

  lemma {:induction false} KeysOfCounted(m: Flat, items: seq<Option<Resource>>, at: set<int>)
    requires at <= Counted(m, items)
    ensures |CountedKeys(m, items, at)| <= |at|
    ensures |CountedKeys(m, items, at)| == |at| <==> AllDifferent(m, items, at)
  {
    if at == {} {
      assert CountedKeys(m, items, at) == {};
    } else {
      var i :| i in at;
      OneMoreKey(m, items, at - {i}, i);
      KeysOfCounted(m, items, at - {i});
      hide Counted, CountedKeys, AllDifferent;
      assert at == at - {i} + {i};
    }
  }

  lemma OneMoreKey(m: Flat, items: seq<Option<Resource>>, rest: set<int>, i: int)
    requires rest + {i} <= Counted(m, items) && i !in rest
    ensures CountedKeys(m, items, rest + {i}) == CountedKeys(m, items, rest) + {KeyOf(items[i].value)}
    ensures AllDifferent(m, items, rest + {i})
            <==> AllDifferent(m, items, rest) && KeyOf(items[i].value) !in CountedKeys(m, items, rest)
  {
    if KeyOf(items[i].value) in CountedKeys(m, items, rest) {
      var j :| j in rest && KeyOf(items[j].value) == KeyOf(items[i].value);
      assert i in rest + {i} && j in rest + {i} && i != j;
    }
  }

  lemma {:induction false} KeysAfterPutAll(m: Flat, items: seq<Option<Resource>>, k: Key)
    ensures k in PutAll(m, items)
            <==> k in m || exists j :: 0 <= j < |items| && items[j].Some? && KeyOf(items[j].value) == k
  {
    if items != [] {
      var n := |items| - 1;
      KeysAfterPutAll(m, items[..n], k);
      if j :| 0 <= j < n && items[..n][j].Some? && KeyOf(items[..n][j].value) == k {
        assert items[j] == items[..n][j];
      }
      if j :| 0 <= j < |items| && items[j].Some? && KeyOf(items[j].value) == k {
        assert j < n ==> items[..n][j] == items[j];
      }
    }
  }

  lemma {:induction false} NewNsKeysAre(m: Flat, items: seq<Option<Resource>>, k: Key)
    ensures k in NewNsKeys(m, items)
            <==> exists j :: 0 <= j < |items| && items[j].Some? && !Present(m, items[j].value.ns)
                             && KeyOf(items[j].value) == k
  {
    if items != [] {
      var n := |items| - 1;
      NewNsKeysAre(m, items[..n], k);
      if j :| 0 <= j < n && items[..n][j].Some? && !Present(m, items[..n][j].value.ns)
              && KeyOf(items[..n][j].value) == k {
        assert items[j] == items[..n][j];
      }
      if j :| 0 <= j < |items| && items[j].Some? && !Present(m, items[j].value.ns) && KeyOf(items[j].value) == k {
        assert j < n ==> items[..n][j] == items[j];
      }
    }
  }

  /** The keys a batch adds: those it counts, and those of new namespaces. */
  lemma KeysAdded(m: Flat, items: seq<Option<Resource>>)
    ensures PutAll(m, items).Keys == m.Keys + CountedKeys(m, items, Counted(m, items)) + NewNsKeys(m, items)
    ensures m.Keys !! CountedKeys(m, items, Counted(m, items)) !! NewNsKeys(m, items)
  {
    hide PutAll, NewNsKeys;
    var counted, fromNew := CountedKeys(m, items, Counted(m, items)), NewNsKeys(m, items);
    forall k ensures k in PutAll(m, items).Keys <==> k in m.Keys + counted + fromNew {
      KeysAfterPutAll(m, items, k);
      NewNsKeysAre(m, items, k);
      if j :| 0 <= j < |items| && items[j].Some? && KeyOf(items[j].value) == k && k !in m && Present(m, k.0) {
        assert j in Counted(m, items);
      }
    }
    forall k | k in fromNew ensures k !in m.Keys && k !in counted {
      NewNsKeysAre(m, items, k);
      assert k in m.Keys ==> Present(m, k.0);
    }
  }

  /** One batch raises the drift by the items it counts twice: never lowers it, and leaves it
      alone exactly when it repeats no new name of a cached namespace. */
  lemma BatchDrift(s: CacheState, items: seq<Option<Resource>>)
    ensures Drift(AfterPutBulk(s, items)) >= Drift(s)
    ensures Drift(AfterPutBulk(s, items)) == Drift(s) <==> !Repeats(s.view, items)
  {
    var m := s.view;
    var counted := Counted(m, items);
    KeysAdded(m, items);
    KeysOfCounted(m, items, counted);
    hide PutAll, NewNsKeys;
    assert |PutAll(m, items)| == |PutAll(m, items).Keys|;
    assert AllDifferent(m, items, counted) <==> !Repeats(m, items);
  }

  lemma StepDrift(s: CacheState, op: Op)
    ensures Drift(After(s, op)) >= Drift(s)
    ensures Drift(After(s, op)) == Drift(s) <==> !(op.OpPutBulk? && Repeats(s.view, op.items))
  {
    if op.OpPutBulk? {
      BatchDrift(s, op.items);
    } else if op.OpDelete? && (op.ns, op.name) in s.view {
      assert (s.view - {(op.ns, op.name)}).Keys == s.view.Keys - {(op.ns, op.name)};
    } else if op.OpPut? && op.r.Some? {
      assert PutOne(s.view, op.r.value).Keys == s.view.Keys + {KeyOf(op.r.value)};
    }
  }

  /** Over any history the counter is at least the number of entries - so it can serve as a
      capacity - and it equals that number if and only if no batch so far repeated a new name
      of a cached namespace. */
  lemma {:induction false} CounterExactIff(states: seq<CacheState>, ops: seq<Op>, n: nat)
    requires IsRun(states, ops) && n < |states|
    ensures states[n].size >= |states[n].view|
    ensures states[n].size == |states[n].view|
            <==> forall i :: 0 <= i < n && ops[i].OpPutBulk? ==> !Repeats(states[i].view, ops[i].items)
  {
    if n > 0 {
      CounterExactIff(states, ops, n - 1);
      StepDrift(states[n - 1], ops[n - 1]);
    }
  }

  function PutEach(s: CacheState, items: seq<Option<Resource>>): CacheState {
    if items == [] then s else AfterPut(PutEach(s, items[..|items| - 1]), items[|items| - 1])
  }

  /** A batch stores what putting its items one by one would store, and its counter is
      ahead of theirs by exactly the drift of the batch. */
  lemma {:induction false} BatchVersusOneByOne(s: CacheState, items: seq<Option<Resource>>)
    ensures PutEach(s, items).view == AfterPutBulk(s, items).view
    ensures Drift(PutEach(s, items)) == Drift(s)
    ensures AfterPutBulk(s, items).size >= PutEach(s, items).size
    ensures AfterPutBulk(s, items).size == PutEach(s, items).size <==> !Repeats(s.view, items)
  {
    OneByOne(s, items);
    BatchDrift(s, items);
  }

  lemma {:induction false} OneByOne(s: CacheState, items: seq<Option<Resource>>)
    ensures PutEach(s, items).view == PutAll(s.view, items) && Drift(PutEach(s, items)) == Drift(s)
  {
    if items != [] {
      var n := |items| - 1;
      OneByOne(s, items[..n]);
      StepDrift(PutEach(s, items[..n]), OpPut(items[n]));
    }
  }

  /** For example: one object is cached and a batch brings another one of its namespace
      twice. */
  lemma CounterCanDrift(skeleton: Skeleton) returns (states: seq<CacheState>, ops: seq<Op>)
    ensures IsRun(states, ops) && |states| == 3
    ensures |states[2].view| == 2 && states[2].size == 3
  {
    var a, b := Resource("ns", "a", 1, skeleton), Resource("ns", "b", 2, skeleton);
    var s0 := CacheState(map[], 0);
    var s1 := After(s0, OpPut(Some(a)));
    var items := [Some(b), Some(b)];
    var s2 := After(s1, OpPutBulk(items));
    states, ops := [s0, s1, s2], [OpPut(Some(a)), OpPutBulk(items)];
    hide PutAll, Counted, NewNsKeys;
    assert s1 == CacheState(map[KeyOf(a) := a], 1);
    SameItemTwice(map[KeyOf(a) := a], a, b);
  }

  /** One object is cached, and a batch brings another one of its namespace twice. */
  lemma SameItemTwice(m: Flat, a: Resource, b: Resource)
    requires m == map[KeyOf(a) := a] && a.ns == b.ns && a.name != b.name
    ensures |Counted(m, [Some(b), Some(b)])| == 2 && NewNsKeys(m, [Some(b), Some(b)]) == {}
    ensures |PutAll(m, [Some(b), Some(b)])| == 2
  {
    var items := [Some(b), Some(b)];
    assert Present(m, b.ns) by { assert KeyOf(a) in m; }
    assert Counted(m, items) == {0, 1};
    forall k ensures k !in NewNsKeys(m, items) {
      NewNsKeysAre(m, items, k);
    }
    hide NewNsKeys, Counted, PutAll;
    forall k ensures k in PutAll(m, items) <==> k == KeyOf(a) || k == KeyOf(b) {
      KeysAfterPutAll(m, items, k);
      assert items[0] == Some(b);
    }
    assert PutAll(m, items).Keys == {KeyOf(a), KeyOf(b)};
  }

  // ----- the same history on the heap

  function AfterAll(s: CacheState, ops: seq<Op>): CacheState {
    if ops == [] then s else After(AfterAll(s, ops[..|ops| - 1]), ops[|ops| - 1])
  }

  method Write(c: SkeletonCache, ghost loaded: Snapshot, op: Op)
    requires c.Valid() && loaded.Valid()
    modifies c`snapshot
    ensures c.Valid() && c.State() == After(old(c.State()), op)
    ensures loaded.Valid() && loaded.View() == old(loaded.View()) && loaded.size == old(loaded.size)
  {
    hide Flatten, WellFormed, AfterPut, AfterPutBulk, AfterDelete;
    match op
    case OpPut(r) => c.Put(r);
    case OpPutBulk(items) => c.PutBulk(items);
    case OpDelete(ns, name) => c.Delete(ns, name);
  }

  /** Whatever is written after a reader has loaded a snapshot, the reader keeps seeing the
      same objects, although later snapshots share its inner maps; and the cache goes through
      the states of the simple form. */
  method WriteAll(c: SkeletonCache, ghost loaded: Snapshot, ops: seq<Op>)
    requires c.Valid() && loaded.Valid()
    modifies c`snapshot
    ensures c.Valid() && c.State() == AfterAll(old(c.State()), ops)
    ensures loaded.Valid() && loaded.View() == old(loaded.View()) && loaded.size == old(loaded.size)
  {
    for i := 0 to |ops|
      invariant c.Valid() && c.State() == AfterAll(old(c.State()), ops[..i])
      invariant loaded.Valid() && loaded.View() == old(loaded.View()) && loaded.size == old(loaded.size)
    {
      Write(c, loaded, ops[i]);
      assert ops[..i + 1][..i] == ops[..i];
    }
    assert ops[..|ops|] == ops;
  }
}
