/**
  The informer's copy-on-write cache (internal/eventstream/cache.go): a root pointer to a
  snapshot, a snapshot that maps namespaces to inner maps, and inner maps that consecutive
  snapshots share. On the heap, so that sharing is real: a write may change the root pointer
  and nothing else that already existed.

  `CacheState` is the simple form it is proved against: one flat map, and the size counter.
 */
module ResourceCache {
  import opened Common
  import opened Resources

  // ----- the simple form

  datatype CacheState = CacheState(view: Flat, size: int)

  function PutOne(m: Flat, r: Resource): Flat {
    m[KeyOf(r) := r]
  }

  function PutAll(m: Flat, items: seq<Option<Resource>>): Flat {
    if items == [] then m
    else
      var n := |items| - 1;
      var before := PutAll(m, items[..n]);
      if items[n].Some? then PutOne(before, items[n].value) else before
  }

  lemma {:induction false} PutAllConcat(m: Flat, a: seq<Option<Resource>>, b: seq<Option<Resource>>)
    ensures PutAll(m, a + b) == PutAll(PutAll(m, a), b)
  {
    if b == [] {
      assert a + b == a;
    } else {
      var n := |b| - 1;
      assert (a + b)[..|a + b| - 1] == a + b[..n];
      PutAllConcat(m, a, b[..n]);
    }
  }

  /** Of the items for one key the last one is stored. */
  lemma {:induction false} LastItemIsStored(m: Flat, items: seq<Option<Resource>>, j: nat)
    requires j < |items| && items[j].Some?
    requires forall i :: j < i < |items| && items[i].Some? ==> KeyOf(items[i].value) != KeyOf(items[j].value)
    ensures Find(PutAll(m, items), KeyOf(items[j].value)) == items[j]
  {
    var n := |items| - 1;
    if j < n {
      assert forall i :: 0 <= i < n ==> items[..n][i] == items[i];
      LastItemIsStored(m, items[..n], j);
    }
  }

  lemma {:induction false} OtherKeysStay(m: Flat, items: seq<Option<Resource>>, k: Key)
    requires forall i :: 0 <= i < |items| && items[i].Some? ==> KeyOf(items[i].value) != k
    ensures Find(PutAll(m, items), k) == Find(m, k)
  {
    if items != [] {
      var n := |items| - 1;
      assert forall j :: 0 <= j < n ==> items[..n][j] == items[j];
      OtherKeysStay(m, items[..n], k);
    }
  }

  predicate Present(m: Flat, ns: string) {
    exists k :: k in m && k.0 == ns
  }

  /** The items that PutBulk counts one by one: the namespace is already cached, the key is
      not. A key that comes twice is counted twice. */
  function Counted(m: Flat, items: seq<Option<Resource>>): set<int> {
    set j | 0 <= j < |items| && items[j].Some? && Present(m, items[j].value.ns) && KeyOf(items[j].value) !in m
  }

  /** The keys in namespaces that were not cached; these are counted as keys. */
  function NewNsKeys(m: Flat, items: seq<Option<Resource>>): set<Key> {
    if items == [] then {}
    else
      var n := |items| - 1;
      NewNsKeys(m, items[..n])
        + (if items[n].Some? && !Present(m, items[n].value.ns) then {KeyOf(items[n].value)} else {})
  }

  function AfterPut(s: CacheState, r: Option<Resource>): CacheState {
    if r.None? then s
    else CacheState(PutOne(s.view, r.value), s.size + (if KeyOf(r.value) in s.view then 0 else 1))
  }

  function AfterPutBulk(s: CacheState, items: seq<Option<Resource>>): CacheState {
    CacheState(PutAll(s.view, items), s.size + |Counted(s.view, items)| + |NewNsKeys(s.view, items)|)
  }

  function AfterDelete(s: CacheState, ns: string, name: string): CacheState {
    if (ns, name) in s.view then CacheState(s.view - {(ns, name)}, s.size - 1) else s
  }

  // ----- the two-level index, as a value

  type Nested = map<string, map<string, Resource>>

  /** No empty inner map, and every object under its own namespace and name. */
  ghost predicate WellFormed(n: Nested) {
    forall ns :: ns in n ==> n[ns] != map[] && Placed(ns, n[ns])
  }

  ghost predicate Placed(ns: string, m: map<string, Resource>) {
    forall name :: name in m ==> KeyOf(m[name]) == (ns, name)
  }

  ghost function Flatten(n: Nested): Flat {
    map k | k in NestedKeys(n) :: n[k.0][k.1]
  }

  ghost function NestedKeys(n: Nested): set<Key> {
    set ns, name | ns in n && name in n[ns] :: (ns, name)
  }

  lemma PresentIsOuterKey(n: Nested, ns: string)
    requires WellFormed(n)
    ensures Present(Flatten(n), ns) <==> ns in n
  {
    if ns in n {
      var name :| name in n[ns];
      assert (ns, name) in Flatten(n);
    }
  }

  ghost function Inner(n: Nested, ns: string): map<string, Resource> {
    if ns in n then n[ns] else map[]
  }

  ghost function NestedPut(n: Nested, r: Resource): Nested {
    n[r.ns := Inner(n, r.ns)[r.name := r]]
  }

  ghost function NestedDelete(n: Nested, ns: string, name: string): Nested
    requires ns in n
  {
    if n[ns] - {name} == map[] then n - {ns} else n[ns := n[ns] - {name}]
  }

  lemma InFlatten(n: Nested, k: Key)
    ensures Find(Flatten(n), k) == if k.0 in n then Find(n[k.0], k.1) else None
  {
    if k.0 in n && k.1 in n[k.0] {
      assert (k.0, k.1) in NestedKeys(n);
    }
  }

  lemma SameMap(a: Flat, b: Flat)
    requires forall k :: Find(a, k) == Find(b, k)
    ensures a == b
  {
    assert forall k :: (k in a <==> Find(a, k).Some?) && (k in b <==> Find(b, k).Some?);
  }

  lemma FlattenPut(n: Nested, r: Resource)
    requires WellFormed(n)
    ensures WellFormed(NestedPut(n, r)) && Flatten(NestedPut(n, r)) == PutOne(Flatten(n), r)
    ensures KeyOf(r) in Flatten(n) <==> r.name in Inner(n, r.ns)
  {
    var p := NestedPut(n, r);
    hide Flatten;
    assert r.name in p[r.ns];
    InFlatten(n, KeyOf(r));
    forall k ensures Find(Flatten(p), k) == Find(PutOne(Flatten(n), r), k) {
      InFlatten(n, k);
      InFlatten(p, k);
    }
    SameMap(Flatten(p), PutOne(Flatten(n), r));
  }

  lemma FlattenDelete(n: Nested, ns: string, name: string)
    requires WellFormed(n)
    ensures (ns, name) in Flatten(n) <==> ns in n && name in n[ns]
    ensures ns in n && name in n[ns] ==>
              WellFormed(NestedDelete(n, ns, name)) && Flatten(NestedDelete(n, ns, name)) == Flatten(n) - {(ns, name)}
  {
    hide Flatten;
    InFlatten(n, (ns, name));
    if ns in n && name in n[ns] {
      var d := NestedDelete(n, ns, name);
      forall k ensures Find(Flatten(d), k) == Find(Flatten(n) - {(ns, name)}, k) {
        InFlatten(n, k);
        InFlatten(d, k);
        assert k.1 in n[ns] && k.1 != name ==> k.1 in n[ns] - {name};
      }
      SameMap(Flatten(d), Flatten(n) - {(ns, name)});
    }
  }

  // ----- batches, namespace by namespace

  function OfNamespace(items: seq<Option<Resource>>, ns: string): seq<Resource> {
    if items == [] then []
    else
      var n := |items| - 1;
      OfNamespace(items[..n], ns) + (if items[n].Some? && items[n].value.ns == ns then [items[n].value] else [])
  }

  function PutNames(m: map<string, Resource>, group: seq<Resource>): map<string, Resource> {
    if group == [] then m
    else PutNames(m, group[..|group| - 1])[group[|group| - 1].name := group[|group| - 1]]
  }

  /** How often PutBulk counts a name as new: once per item, against the old inner map. */
  function CountMissing(m: map<string, Resource>, group: seq<Resource>): nat {
    if group == [] then 0
    else CountMissing(m, group[..|group| - 1]) + (if group[|group| - 1].name in m then 0 else 1)
  }

  function NamespacesOf(items: seq<Option<Resource>>): set<string> {
    if items == [] then {}
    else
      var n := |items| - 1;
      NamespacesOf(items[..n]) + (if items[n].Some? then {items[n].value.ns} else {})
  }

  function NamesOf(items: seq<Option<Resource>>, ns: string): set<string> {
    if items == [] then {}
    else
      var n := |items| - 1;
      NamesOf(items[..n], ns) + (if items[n].Some? && items[n].value.ns == ns then {items[n].value.name} else {})
  }

  ghost function NestedPutAll(n: Nested, items: seq<Option<Resource>>): Nested {
    map ns | ns in n.Keys + NamespacesOf(items) :: PutNames(Inner(n, ns), OfNamespace(items, ns))
  }

  /** What the last item of a batch adds to its group. */
  lemma LastOfGroup(items: seq<Option<Resource>>, ns: string)
    requires items != []
    ensures var g, before := OfNamespace(items, ns), OfNamespace(items[..|items| - 1], ns);
            var last := items[|items| - 1];
            if last.Some? && last.value.ns == ns
            then g != [] && g[..|g| - 1] == before && g[|g| - 1] == last.value
            else g == before
  {}

  lemma {:induction false} GroupIsEmptyUnlessNamed(items: seq<Option<Resource>>, ns: string)
    ensures OfNamespace(items, ns) == [] <==> ns !in NamespacesOf(items)
  {
    if items != [] {
      GroupIsEmptyUnlessNamed(items[..|items| - 1], ns);
    }
  }

  lemma InnerOfAll(n: Nested, items: seq<Option<Resource>>, ns: string)
    ensures Inner(NestedPutAll(n, items), ns) == PutNames(Inner(n, ns), OfNamespace(items, ns))
    ensures ns in NestedPutAll(n, items) <==> ns in n || ns in NamespacesOf(items)
  {
    GroupIsEmptyUnlessNamed(items, ns);
  }

  lemma InnerStep(n: Nested, items: seq<Option<Resource>>, ns: string)
    requires items != []
    ensures var last, before := items[|items| - 1], NestedPutAll(n, items[..|items| - 1]);
            && Inner(NestedPutAll(n, items), ns)
               == (if last.Some? && last.value.ns == ns then Inner(before, ns)[last.value.name := last.value]
                   else Inner(before, ns))
            && (ns in NestedPutAll(n, items) <==> ns in before || (last.Some? && last.value.ns == ns))
  {
    assert ns in NamespacesOf(items) <==>
           ns in NamespacesOf(items[..|items| - 1]) || (items[|items| - 1].Some? && items[|items| - 1].value.ns == ns);
    hide OfNamespace, NestedPutAll, NamespacesOf;
    InnerOfAll(n, items, ns);
    InnerOfAll(n, items[..|items| - 1], ns);
    LastOfGroup(items, ns);
  }

  lemma SameNested(a: Nested, b: Nested)
    requires forall ns :: (ns in a <==> ns in b) && Inner(a, ns) == Inner(b, ns)
    ensures a == b
  {
    assert forall ns :: ns in a ==> a[ns] == Inner(a, ns) && b[ns] == Inner(b, ns);
  }

  lemma NestedPutAllStep(n: Nested, items: seq<Option<Resource>>)
    requires items != []
    ensures var last, before := items[|items| - 1], NestedPutAll(n, items[..|items| - 1]);
            NestedPutAll(n, items) == if last.Some? then NestedPut(before, last.value) else before
  {
    hide OfNamespace, NestedPutAll, NamespacesOf;
    var last, before, all := items[|items| - 1], NestedPutAll(n, items[..|items| - 1]), NestedPutAll(n, items);
    var after := if last.Some? then NestedPut(before, last.value) else before;
    forall ns ensures (ns in all <==> ns in after) && Inner(all, ns) == Inner(after, ns) {
      InnerStep(n, items, ns);
    }
    SameNested(all, after);
  }

  /** Grouping by namespace and merging group by group is putting one by one. */
  lemma {:induction false} FlattenPutAll(n: Nested, items: seq<Option<Resource>>)
    requires WellFormed(n)
    ensures WellFormed(NestedPutAll(n, items)) && Flatten(NestedPutAll(n, items)) == PutAll(Flatten(n), items)
  {
    if items == [] {
      assert NestedPutAll(n, items) == n;
    } else {
      var k := |items| - 1;
      FlattenPutAll(n, items[..k]);
      NestedPutAllStep(n, items);
      if items[k].Some? {
        FlattenPut(NestedPutAll(n, items[..k]), items[k].value);
      }
    }
  }

  // ----- what the counter counts

  function CountedIn(m: map<string, Resource>, items: seq<Option<Resource>>, ns: string): set<int> {
    set j | 0 <= j < |items| && items[j].Some? && items[j].value.ns == ns && items[j].value.name !in m
  }

  lemma CountedStep(m: map<string, Resource>, items: seq<Option<Resource>>, ns: string)
    requires items != []
    ensures var last, before := items[|items| - 1], |CountedIn(m, items[..|items| - 1], ns)|;
            |CountedIn(m, items, ns)|
              == if last.Some? && last.value.ns == ns && last.value.name !in m then before + 1 else before
  {
    var n := |items| - 1;
    var counted := items[n].Some? && items[n].value.ns == ns && items[n].value.name !in m;
    var before := CountedIn(m, items[..n], ns);
    forall j ensures j in CountedIn(m, items, ns) <==> j in before || (j == n && counted) {
      assert 0 <= j < n ==> items[..n][j] == items[j];
    }
    assert n !in before;
    assert CountedIn(m, items, ns) == if counted then before + {n} else before;
  }

  lemma {:induction false} CountMissingCounts(m: map<string, Resource>, items: seq<Option<Resource>>, ns: string)
    ensures CountMissing(m, OfNamespace(items, ns)) == |CountedIn(m, items, ns)|
  {
    if items == [] {
      assert CountedIn(m, items, ns) == {};
    } else {
      var n := |items| - 1;
      CountMissingCounts(m, items[..n], ns);
      CountedStep(m, items, ns);
      LastOfGroup(items, ns);
      hide OfNamespace, CountedIn;
    }
  }

  function PairKeys(ns: string, names: set<string>): set<Key> {
    set name | name in names :: (ns, name)
  }

  lemma {:induction false} PairKeysCount(ns: string, names: set<string>)
    ensures |PairKeys(ns, names)| == |names|
  {
    if names == {} {
      assert PairKeys(ns, names) == {};
    } else {
      var name :| name in names;
      PairKeysCount(ns, names - {name});
      assert PairKeys(ns, names) == PairKeys(ns, names - {name}) + {(ns, name)};
    }
  }

  lemma {:induction false} PutNamesKeys(m: map<string, Resource>, items: seq<Option<Resource>>, ns: string)
    ensures PutNames(m, OfNamespace(items, ns)).Keys == m.Keys + NamesOf(items, ns)
  {
    if items != [] {
      PutNamesKeys(m, items[..|items| - 1], ns);
      LastOfGroup(items, ns);
    }
  }

  /** The counter's formula, read off the two-level index. */
  lemma CountedByNamespace(n: Nested, items: seq<Option<Resource>>)
    requires WellFormed(n)
    ensures forall j :: j in Counted(Flatten(n), items)
                        <==> 0 <= j < |items| && items[j].Some? && items[j].value.ns in n
                             && j in CountedIn(Inner(n, items[j].value.ns), items, items[j].value.ns)
  {
    forall j | 0 <= j < |items| && items[j].Some?
      ensures j in Counted(Flatten(n), items)
              <==> items[j].value.ns in n && j in CountedIn(Inner(n, items[j].value.ns), items, items[j].value.ns)
    {
      PresentIsOuterKey(n, items[j].value.ns);
      InFlatten(n, KeyOf(items[j].value));
    }
  }

  lemma {:induction false} NewKeysByNamespace(n: Nested, items: seq<Option<Resource>>, k: Key)
    requires WellFormed(n)
    ensures k in NewNsKeys(Flatten(n), items) <==> k.0 !in n && k.1 in NamesOf(items, k.0)
  {
    if items != [] {
      var last := items[|items| - 1];
      NewKeysByNamespace(n, items[..|items| - 1], k);
      if last.Some? {
        PresentIsOuterKey(n, last.value.ns);
      }
    }
  }

  function CountedFor(m: Flat, items: seq<Option<Resource>>, done: set<string>): set<int> {
    set j | j in Counted(m, items) && items[j].value.ns in done
  }

  function NewKeysFor(m: Flat, items: seq<Option<Resource>>, done: set<string>): set<Key> {
    set k | k in NewNsKeys(m, items) && k.0 in done
  }

  lemma OneMoreCachedNamespace(n: Nested, items: seq<Option<Resource>>, done: set<string>, ns: string)
    requires WellFormed(n) && ns in n && ns !in done
    ensures |CountedFor(Flatten(n), items, done + {ns})|
              == |CountedFor(Flatten(n), items, done)| + CountMissing(n[ns], OfNamespace(items, ns))
  {
    CountMissingCounts(n[ns], items, ns);
    CountedInOneMore(n, items, done, ns);
    hide Counted, CountedFor, CountedIn, Flatten, OfNamespace;
    assert |CountedFor(Flatten(n), items, done) + CountedIn(n[ns], items, ns)|
        == |CountedFor(Flatten(n), items, done)| + |CountedIn(n[ns], items, ns)|;
  }

  lemma CountedInOneMore(n: Nested, items: seq<Option<Resource>>, done: set<string>, ns: string)
    requires WellFormed(n) && ns in n && ns !in done
    ensures CountedFor(Flatten(n), items, done + {ns})
              == CountedFor(Flatten(n), items, done) + CountedIn(n[ns], items, ns)
    ensures CountedFor(Flatten(n), items, done) !! CountedIn(n[ns], items, ns)
  {
    CountedByNamespace(n, items);
    hide Counted, Flatten;
    var before, here, after := CountedFor(Flatten(n), items, done), CountedIn(n[ns], items, ns),
                               CountedFor(Flatten(n), items, done + {ns});
    forall j ensures j in after <==> j in before || j in here {
      assert j in here ==> items[j].value.ns == ns;
    }
    assert forall j :: j in before ==> j !in here;
    assert after == before + here;
  }

  lemma AllNamespacesCounted(n: Nested, items: seq<Option<Resource>>)
    requires WellFormed(n)
    ensures CountedFor(Flatten(n), items, n.Keys) == Counted(Flatten(n), items)
    ensures CountedFor(Flatten(n), items, {}) == {}
  {
    CountedByNamespace(n, items);
  }

  lemma OneMoreNewNamespace(n: Nested, items: seq<Option<Resource>>, done: set<string>, ns: string)
    requires WellFormed(n) && ns !in n && ns !in done
    ensures |NewKeysFor(Flatten(n), items, done + {ns})|
              == |NewKeysFor(Flatten(n), items, done)| + |PutNames(map[], OfNamespace(items, ns))|
  {
    hide NewNsKeys, Flatten, WellFormed, NamesOf;
    var here := PairKeys(ns, NamesOf(items, ns));
    PutNamesKeys(map[], items, ns);
    PairKeysCount(ns, NamesOf(items, ns));
    forall k ensures k in here <==> k in NewNsKeys(Flatten(n), items) && k.0 == ns {
      NewKeysByNamespace(n, items, k);
      assert k in here <==> k.0 == ns && k.1 in NamesOf(items, ns) by {
        assert k == (k.0, k.1);
      }
    }
    assert NewKeysFor(Flatten(n), items, done + {ns}) == NewKeysFor(Flatten(n), items, done) + here;
    assert NewKeysFor(Flatten(n), items, done) !! here;
    assert |PutNames(map[], OfNamespace(items, ns))| == |PutNames(map[], OfNamespace(items, ns)).Keys|;
  }

  lemma {:induction false} NamedNamespaces(items: seq<Option<Resource>>, ns: string)
    ensures NamesOf(items, ns) != {} ==> ns in NamespacesOf(items)
  {
    if items != [] {
      NamedNamespaces(items[..|items| - 1], ns);
    }
  }

  lemma AllNewNamespacesCounted(n: Nested, items: seq<Option<Resource>>)
    requires WellFormed(n)
    ensures NewKeysFor(Flatten(n), items, NamespacesOf(items) - n.Keys) == NewNsKeys(Flatten(n), items)
    ensures NewKeysFor(Flatten(n), items, {}) == {}
  {
    hide NewNsKeys, Flatten, WellFormed, NamesOf;
    forall k | k in NewNsKeys(Flatten(n), items) ensures k.0 in NamespacesOf(items) - n.Keys {
      NewKeysByNamespace(n, items, k);
      NamedNamespaces(items, k.0);
    }
  }

  // ----- the heap

  class NsMap {
    var entries: map<string, Resource>

    constructor ()
      ensures entries == map[]
    {
      entries := map[];
    }
  }

  /** A new inner map with the entries of another, except one name. */
  method CopyEntries(m: NsMap, without: Option<string>) returns (copy: NsMap)
    ensures fresh(copy)
    ensures copy.entries == if without.Some? then m.entries - {without.value} else m.entries
  {
    copy := new NsMap();
    var todo := m.entries.Keys;
    while todo != {}
      invariant todo <= m.entries.Keys
      invariant copy.entries == map k | k in m.entries && k !in todo && Some(k) != without :: m.entries[k]
      decreases todo
    {
      var k :| k in todo;
      if Some(k) != without {
        copy.entries := copy.entries[k := m.entries[k]];
      }
      todo := todo - {k};
    }
  }

  class Snapshot {
    var items: map<string, NsMap>
    var size: int

    constructor (items: map<string, NsMap>, size: int)
      ensures this.items == items && this.size == size
    {
      this.items, this.size := items, size;
    }

    ghost function Index(): Nested
      reads this, items.Values
    {
      map ns | ns in items :: items[ns].entries
    }

    ghost predicate Valid()
      reads this, items.Values
    {
      WellFormed(Index())
    }

    ghost function View(): Flat
      reads this, items.Values
    {
      Flatten(Index())
    }
  }

  class SkeletonCache {
    var snapshot: Snapshot

    ghost function State(): CacheState
      reads this, snapshot, snapshot.items.Values
    {
      CacheState(snapshot.View(), snapshot.size)
    }

    ghost predicate Valid()
      reads this, snapshot, snapshot.items.Values
    {
      snapshot.Valid()
    }

    constructor ()
      ensures Valid() && State() == CacheState(map[], 0) && fresh(snapshot)
    {
      snapshot := new Snapshot(map[], 0);
    }

    method Get(ns: string, name: string) returns (r: Option<Resource>)
      requires Valid()
      ensures r == Find(State().view, (ns, name))
    {
      var snap := snapshot;
      if ns !in snap.items {
        return None;
      }
      var nsItems := snap.items[ns];
      if name !in nsItems.entries {
        return None;
      }
      return Some(nsItems.entries[name]);
    }

    method Put(r: Option<Resource>)
      requires Valid()
      modifies this`snapshot
      ensures Valid() && State() == AfterPut(old(State()), r)
      ensures r.Some? ==> fresh(snapshot)
    {
      hide Flatten, WellFormed;
      if r.None? {
        return;
      }
      snapshot := SnapshotPut(snapshot, r.value);
    }

    method Delete(ns: string, name: string)
      requires Valid()
      modifies this`snapshot
      ensures Valid() && State() == AfterDelete(old(State()), ns, name)
    {
      hide Flatten, WellFormed;
      FlattenDelete(snapshot.Index(), ns, name);
      if ns !in snapshot.items {
        return;
      }
      if name !in snapshot.items[ns].entries {
        return;
      }
      snapshot := SnapshotWithout(snapshot, ns, name);
    }

    method PutBulk(items: seq<Option<Resource>>)
      requires Valid()
      modifies this`snapshot
      ensures Valid() && State() == AfterPutBulk(old(State()), items)
      ensures items != [] ==> fresh(snapshot)
    {
      hide Flatten, WellFormed, Counted, NewNsKeys, PutAll;
      if |items| == 0 {
        NothingCounted(snapshot.View(), items);
        return;
      }
      snapshot := SnapshotWith(snapshot, items);
    }

    method List(ns: string) returns (result: seq<Resource>)
      requires Valid()
      ensures Lists(result, if ns == "" then State().view else OfNs(State().view, ns))
    {
      if ns == "" {
        result := ListAll();
        return;
      }
      var snap := snapshot;
      ghost var n := snap.Index();
      forall k ensures Find(OfNs(snap.View(), ns), k) == if k.0 == ns && ns in n then Find(n[ns], k.1) else None {
        InFlatten(n, k);
      }
      hide Flatten;
      if ns !in snap.items {
        ListsNothing(OfNs(snap.View(), ns));
        return [];
      }
      result := Values(ns, snap.items[ns]);
      forall r ensures r in result <==> KeyOf(r) in OfNs(snap.View(), ns) && OfNs(snap.View(), ns)[KeyOf(r)] == r {
        assert Find(OfNs(snap.View(), ns), KeyOf(r)) == if r.ns == ns then Find(n[ns], r.name) else None;
      }
    }

    method ListAll() returns (result: seq<Resource>)
      requires Valid()
      ensures Lists(result, State().view)
    {
      var snap := snapshot;
      ghost var n := snap.Index();
      result := [];
      var todo := snap.items.Keys;
      while todo != {}
        invariant todo <= snap.items.Keys && NoDup(result)
        invariant forall r :: r in result <==> r.ns in n && r.ns !in todo && r.name in n[r.ns] && n[r.ns][r.name] == r
        decreases todo
      {
        var ns :| ns in todo;
        assert ns in n && Placed(ns, n[ns]);
        var more := Values(ns, snap.items[ns]);
        assert forall i, j :: 0 <= i < |result| && 0 <= j < |more| ==> result[i] in result && more[j] in more;
        result := result + more;
        todo := todo - {ns};
      }
      forall r ensures r in result <==> KeyOf(r) in snap.View() && snap.View()[KeyOf(r)] == r {
        InFlatten(n, KeyOf(r));
      }
    }
  }

  lemma NothingCounted(m: Flat, items: seq<Option<Resource>>)
    requires items == []
    ensures Counted(m, items) == {} && NewNsKeys(m, items) == {} && PutAll(m, items) == m
  {}

  lemma ListsNothing(m: Flat)
    requires forall k :: Find(m, k) == None
    ensures Lists([], m)
  {
    assert forall k :: k in m ==> Find(m, k).Some?;
  }

  /** All resources of a map, each once. */
  ghost predicate Lists(result: seq<Resource>, m: Flat) {
    NoDup(result) && forall r :: r in result <==> KeyOf(r) in m && m[KeyOf(r)] == r
  }

  ghost function OfNs(m: Flat, ns: string): Flat {
    map k | k in m && k.0 == ns :: m[k]
  }

  method Values(ns: string, m: NsMap) returns (result: seq<Resource>)
    requires Placed(ns, m.entries)
    ensures NoDup(result)
    ensures forall r :: r in result <==> r.ns == ns && r.name in m.entries && m.entries[r.name] == r
  {
    result := [];
    var todo := m.entries.Keys;
    while todo != {}
      invariant todo <= m.entries.Keys && NoDup(result)
      invariant forall r :: r in result <==>
                  r.ns == ns && r.name in m.entries && r.name !in todo && m.entries[r.name] == r
      decreases todo
    {
      var name :| name in todo;
      result := result + [m.entries[name]];
      todo := todo - {name};
    }
  }

  /** The snapshots that Put and Delete publish. */
  method SnapshotPut(before: Snapshot, x: Resource) returns (after: Snapshot)
    requires before.Valid()
    ensures fresh(after) && after.Valid() && after.View() == PutOne(before.View(), x)
    ensures after.size == before.size + (if KeyOf(x) in before.View() then 0 else 1)
  {
    hide Flatten, WellFormed;
    var newItems, newSize := ItemsWith(before, x);
    after := new Snapshot(newItems, newSize);
    assert after.Index() == NestedPut(before.Index(), x);
    FlattenPut(before.Index(), x);
  }

  method SnapshotWithout(before: Snapshot, ns: string, name: string) returns (after: Snapshot)
    requires before.Valid() && ns in before.items && name in before.items[ns].entries
    ensures fresh(after) && after.Valid() && after.View() == before.View() - {(ns, name)}
    ensures after.size == before.size - 1
  {
    hide Flatten, WellFormed;
    FlattenDelete(before.Index(), ns, name);
    var newItems := ItemsWithout(before, ns, name);
    after := new Snapshot(newItems, before.size - 1);
    assert after.Index() == NestedDelete(before.Index(), ns, name);
  }

  /** The snapshot that PutBulk publishes. */
  method SnapshotWith(before: Snapshot, items: seq<Option<Resource>>) returns (after: Snapshot)
    requires before.Valid()
    ensures fresh(after) && after.Valid() && after.View() == PutAll(before.View(), items)
    ensures after.size == before.size + |Counted(before.View(), items)| + |NewNsKeys(before.View(), items)|
  {
    hide Flatten, WellFormed, OfNamespace, PutNames, NamespacesOf, Counted, NewNsKeys, PutAll, NestedPutAll;
    var groups := GroupByNamespace(items);
    var newItems, newSize := ItemsWithGroups(before, items, groups);
    after := new Snapshot(newItems, newSize);
    ghost var now, all := after.Index(), NestedPutAll(before.Index(), items);
    forall ns ensures (ns in now <==> ns in all) && Inner(now, ns) == Inner(all, ns) {
      InnerOfAll(before.Index(), items, ns);
    }
    SameNested(now, all);
    FlattenPutAll(before.Index(), items);
  }

  method GroupByNamespace(items: seq<Option<Resource>>) returns (groups: map<string, seq<Resource>>)
    ensures groups.Keys == NamespacesOf(items)
    ensures forall ns :: ns in groups ==> groups[ns] == OfNamespace(items, ns)
  {
    groups := map[];
    for j := 0 to |items|
      invariant groups.Keys == NamespacesOf(items[..j])
      invariant forall ns :: ns in groups ==> groups[ns] == OfNamespace(items[..j], ns)
    {
      assert items[..j + 1][..j] == items[..j];
      if items[j].None? {
        continue;
      }
      var r := items[j].value;
      GroupIsEmptyUnlessNamed(items[..j], r.ns);
      groups := groups[r.ns := (if r.ns in groups then groups[r.ns] else []) + [r]];
    }
    assert items[..|items|] == items;
  }

  /** One namespace that is already cached: copy, add, and count against the old entries. */
  method MergeGroup(nsMap: NsMap, group: seq<Resource>) returns (merged: NsMap, grown: nat)
    ensures fresh(merged) && merged.entries == PutNames(nsMap.entries, group)
    ensures grown == CountMissing(nsMap.entries, group)
  {
    merged := CopyEntries(nsMap, None);
    grown := 0;
    for i := 0 to |group|
      invariant merged.entries == PutNames(nsMap.entries, group[..i])
      invariant grown == CountMissing(nsMap.entries, group[..i])
    {
      assert group[..i + 1][..i] == group[..i];
      if group[i].name !in nsMap.entries {
        grown := grown + 1;
      }
      merged.entries := merged.entries[group[i].name := group[i]];
    }
    assert group[..|group|] == group;
  }

  /** The new outer map of PutBulk, and the counter: first the namespaces that are cached,
      then the new ones. */
  method ItemsWithGroups(before: Snapshot, items: seq<Option<Resource>>, groups: map<string, seq<Resource>>)
    returns (newItems: map<string, NsMap>, newSize: int)
    requires before.Valid() && groups.Keys == NamespacesOf(items)
    requires forall ns :: ns in groups ==> groups[ns] == OfNamespace(items, ns)
    ensures newItems.Keys == before.items.Keys + NamespacesOf(items)
    ensures forall ns :: ns in newItems ==>
                           newItems[ns].entries == PutNames(Inner(before.Index(), ns), OfNamespace(items, ns))
    ensures newSize == before.size + |Counted(before.View(), items)| + |NewNsKeys(before.View(), items)|
  {
    hide Flatten, WellFormed, OfNamespace, NamespacesOf, PutNames, CountedFor, Counted, NewKeysFor, NewNsKeys;
    ghost var n := before.Index();
    AllNamespacesCounted(n, items);
    AllNewNamespacesCounted(n, items);
    var cached, counted, left := MergeCached(n, before.items, items, groups);
    var added;
    newItems, added := AddNew(n, items, cached, left);
    newSize := before.size + counted + added;
    assert left.Keys == NamespacesOf(items) - n.Keys;
  }

  method MergeCached(ghost n: Nested, was: map<string, NsMap>, items: seq<Option<Resource>>,
                     groups: map<string, seq<Resource>>)
    returns (newItems: map<string, NsMap>, counted: int, left: map<string, seq<Resource>>)
    requires WellFormed(n) && was.Keys == n.Keys && forall ns :: ns in was ==> was[ns].entries == n[ns]
    requires groups.Keys == NamespacesOf(items)
    requires forall ns :: ns in groups ==> groups[ns] == OfNamespace(items, ns)
    ensures newItems.Keys == was.Keys
    ensures forall ns :: ns in newItems ==> newItems[ns].entries == PutNames(n[ns], OfNamespace(items, ns))
    ensures counted == |CountedFor(Flatten(n), items, was.Keys)|
    ensures forall ns :: ns in left <==> ns in groups && ns !in was
    ensures forall ns :: ns in left ==> left[ns] == groups[ns]
  {
    hide Flatten, WellFormed, OfNamespace, CountedFor, Counted, CountMissing, NamespacesOf, PutNames;
    AllNamespacesCounted(n, items);
    counted := 0;
    newItems := map[];
    left := groups;
    ghost var done: set<string> := {};
    var todo := was.Keys;
    while todo != {}
      invariant forall ns :: ns in was <==> ns in done || ns in todo
      invariant forall ns :: ns in todo ==> ns !in done
      invariant newItems.Keys == done
      invariant forall ns :: ns in left <==> ns in groups && ns !in done
      invariant forall ns :: ns in left ==> left[ns] == groups[ns]
      invariant forall ns :: ns in done ==> newItems[ns].entries == PutNames(n[ns], OfNamespace(items, ns))
      invariant counted == |CountedFor(Flatten(n), items, done)|
      decreases todo
    {
      var ns :| ns in todo;
      OneMoreCachedNamespace(n, items, done, ns);
      var nsMap, grown := was[ns], 0;
      if ns in left {
        nsMap, grown := MergeGroup(nsMap, left[ns]);
        left := left - {ns};
      } else {
        GroupIsEmptyUnlessNamed(items, ns);
        NoGroup(n[ns], OfNamespace(items, ns));
      }
      newItems := newItems[ns := nsMap];
      counted := counted + grown;
      todo, done := todo - {ns}, done + {ns};
    }
    assert done == was.Keys;
  }

  lemma NoNewKeysYet(m: Flat, items: seq<Option<Resource>>)
    ensures NewKeysFor(m, items, {}) == {}
  {}

  lemma NoGroup(m: map<string, Resource>, group: seq<Resource>)
    requires group == []
    ensures CountMissing(m, group) == 0 && PutNames(m, group) == m
  {}

  method AddNew(ghost n: Nested, items: seq<Option<Resource>>, cached: map<string, NsMap>,
                left: map<string, seq<Resource>>)
    returns (newItems: map<string, NsMap>, added: int)
    requires WellFormed(n) && forall ns :: ns in left ==> ns !in n && ns !in cached
    requires forall ns :: ns in left ==> left[ns] == OfNamespace(items, ns)
    ensures newItems.Keys == cached.Keys + left.Keys
    ensures forall ns :: ns in cached ==> newItems[ns] == cached[ns]
    ensures forall ns :: ns in left ==> newItems[ns].entries == PutNames(map[], OfNamespace(items, ns))
    ensures added == |NewKeysFor(Flatten(n), items, left.Keys)|
  {
    hide Flatten, WellFormed, OfNamespace, NewKeysFor, NewNsKeys, NamespacesOf, PutNames;
    NoNewKeysYet(Flatten(n), items);
    newItems, added := cached, 0;
    ghost var done: set<string> := {};
    var todo := left.Keys;
    while todo != {}
      invariant forall ns :: ns in left <==> ns in done || ns in todo
      invariant forall ns :: ns in todo ==> ns !in done
      invariant forall ns :: ns in newItems <==> ns in cached || ns in done
      invariant forall ns :: ns in cached ==> newItems[ns] == cached[ns]
      invariant forall ns :: ns in done ==> newItems[ns].entries == PutNames(map[], OfNamespace(items, ns))
      invariant added == |NewKeysFor(Flatten(n), items, done)|
      decreases todo
    {
      var ns :| ns in todo;
      OneMoreNewNamespace(n, items, done, ns);
      var nsMap := FromGroup(left[ns]);
      newItems := newItems[ns := nsMap];
      added := added + |nsMap.entries|;
      todo, done := todo - {ns}, done + {ns};
    }
    assert done == left.Keys;
  }

  method FromGroup(group: seq<Resource>) returns (m: NsMap)
    ensures fresh(m) && m.entries == PutNames(map[], group)
  {
    m := new NsMap();
    for i := 0 to |group|
      invariant m.entries == PutNames(map[], group[..i])
    {
      assert group[..i + 1][..i] == group[..i];
      m.entries := m.entries[group[i].name := group[i]];
    }
    assert group[..|group|] == group;
  }

  /** The new outer map of Put: the inner map of the object's namespace is copied and gets the
      object, the others are shared. */
  method ItemsWith(before: Snapshot, x: Resource) returns (newItems: map<string, NsMap>, newSize: int)
    ensures newItems.Keys == before.items.Keys + {x.ns}
    ensures forall ns :: ns in before.items && ns != x.ns ==> newItems[ns] == before.items[ns]
    ensures fresh(newItems[x.ns]) && newItems[x.ns].entries == Inner(before.Index(), x.ns)[x.name := x]
    ensures newSize == before.size + (if x.name in Inner(before.Index(), x.ns) then 0 else 1)
  {
    newSize := before.size;
    newItems := map[];
    var todo := before.items.Keys;
    while todo != {}
      invariant todo <= before.items.Keys && newItems.Keys == before.items.Keys - todo
      invariant forall ns :: ns in newItems && ns != x.ns ==> newItems[ns] == before.items[ns]
      invariant x.ns in newItems ==>
                  fresh(newItems[x.ns]) && newItems[x.ns].entries == before.items[x.ns].entries[x.name := x]
      invariant newSize == before.size + (if x.ns in newItems && x.name !in before.items[x.ns].entries then 1 else 0)
      decreases todo
    {
      var ns :| ns in todo;
      var nsMap := before.items[ns];
      if ns == x.ns {
        var newNsMap := CopyEntries(nsMap, None);
        if x.name !in nsMap.entries {
          newSize := newSize + 1;
        }
        newNsMap.entries := newNsMap.entries[x.name := x];
        newItems := newItems[ns := newNsMap];
      } else {
        newItems := newItems[ns := nsMap];
      }
      todo := todo - {ns};
    }
    if x.ns !in newItems {
      var newNsMap := new NsMap();
      newNsMap.entries := map[x.name := x];
      newItems := newItems[x.ns := newNsMap];
      newSize := newSize + 1;
    }
  }

  /** The new outer map of Delete; a namespace left without objects is dropped. */
  method ItemsWithout(before: Snapshot, ns: string, name: string) returns (newItems: map<string, NsMap>)
    requires ns in before.items && name in before.items[ns].entries
    ensures var rest := before.items[ns].entries - {name};
            && newItems.Keys == before.items.Keys - (if rest == map[] then {ns} else {})
            && (forall n :: n in newItems && n != ns ==> newItems[n] == before.items[n])
            && (ns in newItems ==> newItems[ns].entries == rest)
  {
    newItems := map[];
    var todo := before.items.Keys;
    ghost var rest := before.items[ns].entries - {name};
    while todo != {}
      invariant todo <= before.items.Keys
      invariant newItems.Keys == before.items.Keys - todo - (if rest == map[] then {ns} else {})
      invariant forall n :: n in newItems && n != ns ==> newItems[n] == before.items[n]
      invariant ns in newItems ==> newItems[ns].entries == rest
      decreases todo
    {
      var n :| n in todo;
      if n == ns {
        var newNsMap := CopyEntries(before.items[n], Some(name));
        if newNsMap.entries != map[] {
          newItems := newItems[n := newNsMap];
        }
      } else {
        newItems := newItems[n := before.items[n]];
      }
      todo := todo - {n};
    }
  }
}
