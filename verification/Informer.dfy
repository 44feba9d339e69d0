/**
  What the informer does with a list and with the lines of a watch
  (internal/eventstream/informer_impl.go): it keeps its cache and its resource version up to
  date, and tells its subscribers.

  `View` and `AfterLine` are the simple form; the class works on the copy-on-write cache and
  on the subscriptions.
 */
module Informer {
  import opened Common
  import opened Resources
  import opened ResourceCache
  import opened Subscriber

  datatype Kind = ADDED | MODIFIED | DELETED | BOOKMARK | OTHER

  /** `version` is what the scan for resourceVersion finds; `item` is absent when the
      skeleton cannot be parsed. */
  datatype Line =
    | Blank
    | Malformed
    | ErrorLine(code: int)
    | ObjectLine(kind: Kind, version: Option<nat>, item: Option<Resource>)

  datatype Event =
    | AddEvent(ns: string, name: string, now: Resource)
    | UpdateEvent(ns: string, name: string, was: Option<Resource>, now: Resource)
    | DeleteEvent(ns: string, name: string, was: Option<Resource>)

  datatype EventKind = EventAdd | EventUpdate | EventDelete

  function KindOf(e: Event): EventKind {
    match e
    case AddEvent(_, _, _) => EventAdd
    case UpdateEvent(_, _, _, _) => EventUpdate
    case DeleteEvent(_, _, _) => EventDelete
  }

  function Count(counts: map<EventKind, nat>, kind: EventKind): nat {
    if kind in counts then counts[kind] else 0
  }

  function Bumped(counts: map<EventKind, nat>, kind: EventKind): map<EventKind, nat> {
    counts[kind := Count(counts, kind) + 1]
  }

  datatype View = View(cache: CacheState, version: Option<nat>)

  function VersionAfter(version: Option<nat>, line: Line): Option<nat> {
    if line.ObjectLine? && line.version.Some? then line.version else version
  }

  function CacheAfter(s: CacheState, line: Line): CacheState {
    if !line.ObjectLine? || line.item.None? then s
    else
      var r := line.item.value;
      match line.kind
      case ADDED => AfterPut(s, Some(r))
      case MODIFIED => AfterPut(s, Some(r))
      case DELETED => AfterDelete(s, r.ns, r.name)
      case _ => s
  }

  /** At most one event a line: none for a bookmark, for an object that cannot be parsed, and
      for a modification that leaves the skeleton of a cached object alone. */
  function EventOf(m: Flat, line: Line): Option<Event> {
    if !line.ObjectLine? || line.item.None? then None
    else
      var r := line.item.value;
      var was := Find(m, KeyOf(r));
      match line.kind
      case ADDED => Some(AddEvent(r.ns, r.name, r))
      case MODIFIED =>
        if was.Some? && !SkeletonChanged(was, Some(r)) then None else Some(UpdateEvent(r.ns, r.name, was, r))
      case DELETED => Some(DeleteEvent(r.ns, r.name, was))
      case _ => None
  }

  function AfterLine(v: View, line: Line): View {
    View(CacheAfter(v.cache, line), VersionAfter(v.version, line))
  }

  function AfterLines(v: View, lines: seq<Line>): View {
    if lines == [] then v else AfterLine(AfterLines(v, lines[..|lines| - 1]), lines[|lines| - 1])
  }

  type Shard = Option<string -> bool>

  predicate Owns(shard: Shard, ns: string) {
    shard.None? || shard.value(ns)
  }

  /** The events of a line that reach the subscribers. */
  function Sent(m: Flat, line: Line, shard: Shard): seq<Event> {
    var e := EventOf(m, line);
    if e.Some? && Owns(shard, e.value.ns) then [e.value] else []
  }

  lemma SentOf(m: Flat, r: Resource, shard: Shard)
    ensures var was, owned := Find(m, KeyOf(r)), Owns(shard, r.ns);
            && Sent(m, ObjectLine(ADDED, None, Some(r)), shard) == (if owned then [AddEvent(r.ns, r.name, r)] else [])
            && Sent(m, ObjectLine(MODIFIED, None, Some(r)), shard)
               == (if owned && (was.None? || SkeletonChanged(was, Some(r))) then [UpdateEvent(r.ns, r.name, was, r)]
                   else [])
            && Sent(m, ObjectLine(DELETED, None, Some(r)), shard)
               == (if owned then [DeleteEvent(r.ns, r.name, was)] else [])
  {}

  function AllSent(v: View, lines: seq<Line>, shard: Shard): seq<Event> {
    if lines == [] then []
    else
      var n := |lines| - 1;
      AllSent(v, lines[..n], shard) + Sent(AfterLines(v, lines[..n]).cache.view, lines[n], shard)
  }

  // ----- lists

  datatype Page = Fails | Page(version: Option<nat>, items: seq<Option<Resource>>)

  function FirstVersion(pages: seq<Page>): Option<nat> {
    if pages == [] then None
    else
      var n := |pages| - 1;
      var first := FirstVersion(pages[..n]);
      if first.Some? || pages[n].Fails? then first else pages[n].version
  }

  /** The parsable items of all pages, in order. */
  function Parsed(items: seq<Option<Resource>>): seq<Option<Resource>> {
    if items == [] then []
    else Parsed(items[..|items| - 1]) + (if items[|items| - 1].Some? then [items[|items| - 1]] else [])
  }

  function Collected(pages: seq<Page>): seq<Option<Resource>> {
    if pages == [] then []
    else
      var n := |pages| - 1;
      Collected(pages[..n]) + (if pages[n].Page? then Parsed(pages[n].items) else [])
  }

  /** A list replaces the version, and adds to the cache without removing anything; a list
      that fails at any page changes neither. */
  function AfterList(v: View, pages: seq<Page>): View {
    if Fails in pages then v
    else View(AfterPutBulk(v.cache, Collected(pages)), FirstVersion(pages))
  }

  // ----- what a list leaves behind, page by page

  ghost predicate ListedAt(pages: seq<Page>, i: nat, j: nat, r: Resource) {
    i < |pages| && pages[i].Page? && j < |pages[i].items| && pages[i].items[j] == Some(r)
  }

  /** Its key comes again neither later in that page nor in a later page. */
  ghost predicate LastListedAt(pages: seq<Page>, i: nat, j: nat, r: Resource) {
    && ListedAt(pages, i, j, r)
    && forall i': nat, j': nat, r' :: ListedAt(pages, i', j', r') && KeyOf(r') == KeyOf(r) ==>
         i' < i || (i' == i && j' <= j)
  }

  ghost predicate ListsNone(pages: seq<Page>, k: Key) {
    forall i: nat, j: nat, r :: ListedAt(pages, i, j, r) ==> KeyOf(r) != k
  }

  ghost predicate FirstVersionAt(pages: seq<Page>, i: nat) {
    && i < |pages| && pages[i].Page? && pages[i].version.Some?
    && forall j :: 0 <= j < i && pages[j].Page? ==> pages[j].version.None?
  }

  /** A listed key has the last object that was listed for it, any other key what it had; the
      version is that of the first page that carries one. */
  ghost predicate ListFollows(before: Flat, pages: seq<Page>, after: Flat) {
    && (forall i: nat, j: nat, r :: LastListedAt(pages, i, j, r) ==> Find(after, KeyOf(r)) == Some(r))
    && (forall k :: ListsNone(pages, k) ==> Find(after, k) == Find(before, k))
  }

  ghost predicate VersionFollowsList(pages: seq<Page>, version: Option<nat>) {
    && (forall i: nat :: FirstVersionAt(pages, i) ==> version == pages[i].version)
    && ((forall i :: 0 <= i < |pages| && pages[i].Page? ==> pages[i].version.None?) ==> version.None?)
  }

  /** A key that is listed at all is listed somewhere for the last time. */
  lemma {:induction false} LastListing(pages: seq<Page>, k: Key) returns (i: nat, j: nat, r: Resource)
    requires !ListsNone(pages, k)
    ensures LastListedAt(pages, i, j, r) && KeyOf(r) == k
  {
    var n := |pages| - 1;
    var i0: nat, j0: nat, r0 :| ListedAt(pages, i0, j0, r0) && KeyOf(r0) == k;
    if j1: nat, r1 :| ListedAt(pages, n, j1, r1) && KeyOf(r1) == k {
      i, j, r := n, j1, r1;
      for j2 := j1 + 1 to |pages[n].items|
        invariant j < j2 && ListedAt(pages, n, j, r) && KeyOf(r) == k
        invariant forall j': nat, r' :: j < j' < j2 && ListedAt(pages, n, j', r') ==> KeyOf(r') != k
      {
        if pages[n].items[j2].Some? && KeyOf(pages[n].items[j2].value) == k {
          j, r := j2, pages[n].items[j2].value;
        }
      }
    } else {
      assert forall i: nat, j: nat, r :: i < n ==> (ListedAt(pages[..n], i, j, r) <==> ListedAt(pages, i, j, r));
      assert i0 != n;
      i, j, r := LastListing(pages[..n], k);
    }
  }

  ghost predicate ListLeaves(before: View, pages: seq<Page>, after: View) {
    ListFollows(before.cache.view, pages, after.cache.view) && VersionFollowsList(pages, after.version)
  }

  lemma ListedView(v: View, pages: seq<Page>)
    ensures Fails !in pages ==> ListLeaves(v, pages, AfterList(v, pages))
  {
    if Fails !in pages {
      CollectedFollows(v.cache.view, pages);
      FirstVersionIsFirst(pages);
    }
    hide ListFollows, VersionFollowsList, Collected, FirstVersion;
  }

  lemma {:induction false} FirstVersionIsFirst(pages: seq<Page>)
    ensures VersionFollowsList(pages, FirstVersion(pages))
    ensures FirstVersion(pages).Some? ==> exists i: nat :: FirstVersionAt(pages, i)
  {
    if pages != [] {
      var n := |pages| - 1;
      FirstVersionIsFirst(pages[..n]);
      assert forall i :: 0 <= i < n ==> pages[..n][i] == pages[i];
      assert forall i: nat :: i < n ==> (FirstVersionAt(pages, i) <==> FirstVersionAt(pages[..n], i));
      if FirstVersion(pages[..n]).None? && FirstVersion(pages).Some? {
        assert forall i :: 0 <= i < n && pages[i].Page? && pages[i].version.Some? ==> pages[..n][i].version.Some?;
        NoVersionInFront(pages[..n]);
        assert FirstVersionAt(pages, n);
      }
    }
  }

  lemma {:induction false} NoVersionInFront(pages: seq<Page>)
    requires FirstVersion(pages).None?
    ensures forall i :: 0 <= i < |pages| && pages[i].Page? ==> pages[i].version.None?
  {
    if pages != [] {
      NoVersionInFront(pages[..|pages| - 1]);
      assert forall i :: 0 <= i < |pages| - 1 ==> pages[..|pages| - 1][i] == pages[i];
    }
  }

  lemma {:induction false} CollectedFollows(m: Flat, pages: seq<Page>)
    requires Fails !in pages
    ensures ListFollows(m, pages, PutAll(m, Collected(pages)))
  {
    if pages != [] {
      var n := |pages| - 1;
      var front, last := pages[..n], pages[n];
      assert last in pages;
      CollectedFollows(m, front);
      var mid := PutAll(m, Collected(front));
      PutAllConcat(m, Collected(front), Parsed(last.items));
      ParsedStoresTheSame(mid, last.items);
      LastPageFollows(m, pages, mid);
    }
  }

  lemma LastPageFollows(m: Flat, pages: seq<Page>, mid: Flat)
    requires pages != [] && pages[|pages| - 1].Page? && ListFollows(m, pages[..|pages| - 1], mid)
    ensures ListFollows(m, pages, PutAll(mid, pages[|pages| - 1].items))
  {
    var n := |pages| - 1;
    var front, items := pages[..n], pages[n].items;
    hide PutAll;
    assert forall i: nat, j: nat, r :: i < n ==> (ListedAt(front, i, j, r) <==> ListedAt(pages, i, j, r));
    assert forall j: nat, r :: j < |items| ==> (ListedAt(pages, n, j, r) <==> items[j] == Some(r));
    forall i: nat, j: nat, r | LastListedAt(pages, i, j, r) ensures Find(PutAll(mid, items), KeyOf(r)) == Some(r) {
      if i == n {
        forall j' | j < j' < |items| && items[j'].Some? ensures KeyOf(items[j'].value) != KeyOf(r) {
          assert ListedAt(pages, n, j', items[j'].value);
        }
        LastItemIsStored(mid, items, j);
      } else {
        forall j' | 0 <= j' < |items| && items[j'].Some? ensures KeyOf(items[j'].value) != KeyOf(r) {
          assert ListedAt(pages, n, j', items[j'].value);
        }
        OtherKeysStay(mid, items, KeyOf(r));
        assert LastListedAt(front, i, j, r);
      }
    }
    forall k | ListsNone(pages, k) ensures Find(PutAll(mid, items), k) == Find(m, k) {
      forall j' | 0 <= j' < |items| && items[j'].Some? ensures KeyOf(items[j'].value) != k {
        assert ListedAt(pages, n, j', items[j'].value);
      }
      OtherKeysStay(mid, items, k);
      assert ListsNone(front, k);
    }
  }

  // ----- what lines leave behind, line by line

  ghost predicate IsAbout(line: Line, k: Key) {
    && line.ObjectLine? && line.item.Some? && KeyOf(line.item.value) == k
    && (line.kind == ADDED || line.kind == MODIFIED || line.kind == DELETED)
  }

  ghost predicate LastAbout(lines: seq<Line>, k: Key, i: nat) {
    i < |lines| && IsAbout(lines[i], k) && forall j :: i < j < |lines| ==> !IsAbout(lines[j], k)
  }

  ghost predicate CarriesVersion(line: Line) {
    line.ObjectLine? && line.version.Some?
  }

  ghost predicate LastVersion(lines: seq<Line>, i: nat) {
    i < |lines| && CarriesVersion(lines[i]) && forall j :: i < j < |lines| ==> !CarriesVersion(lines[j])
  }

  /** What the lines say about k last, what there was before if they say nothing. */
  ghost function Latest(before: Flat, lines: seq<Line>, k: Key): Option<Resource> {
    if exists i: nat :: LastAbout(lines, k, i) then
      var i: nat :| LastAbout(lines, k, i);
      if lines[i].kind == DELETED then None else lines[i].item
    else Find(before, k)
  }

  lemma LatestIsLast(before: Flat, lines: seq<Line>, k: Key)
    ensures forall i: nat :: LastAbout(lines, k, i) ==>
              Latest(before, lines, k) == if lines[i].kind == DELETED then None else lines[i].item
    ensures (forall i :: 0 <= i < |lines| ==> !IsAbout(lines[i], k)) ==> Latest(before, lines, k) == Find(before, k)
  {
    forall i: nat, j: nat | LastAbout(lines, k, i) && LastAbout(lines, k, j) ensures i == j {
      assert IsAbout(lines[i], k) && IsAbout(lines[j], k);
    }
  }

  lemma LatestStep(before: Flat, lines: seq<Line>, k: Key)
    requires lines != []
    ensures var last := lines[|lines| - 1];
            Latest(before, lines, k)
              == if IsAbout(last, k) then (if last.kind == DELETED then None else last.item)
                 else Latest(before, lines[..|lines| - 1], k)
  {
    var n := |lines| - 1;
    hide Latest, IsAbout;
    assert forall i :: 0 <= i < n ==> lines[..n][i] == lines[i];
    if IsAbout(lines[n], k) {
      LatestAt(before, lines, k, n);
    } else if i: nat :| LastAbout(lines[..n], k, i) {
      LatestAt(before, lines[..n], k, i);
      LatestAt(before, lines, k, i);
    } else {
      NoLastNone(lines[..n], k);
      LatestIsLast(before, lines[..n], k);
      LatestIsLast(before, lines, k);
      hide LastAbout;
    }
  }

  lemma LatestAt(before: Flat, lines: seq<Line>, k: Key, i: nat)
    requires LastAbout(lines, k, i)
    ensures IsAbout(lines[i], k)
    ensures Latest(before, lines, k) == if lines[i].kind == DELETED then None else lines[i].item
  {
    LatestIsLast(before, lines, k);
  }

  lemma {:induction false} NoLastNone(lines: seq<Line>, k: Key)
    requires forall i: nat :: !LastAbout(lines, k, i)
    ensures forall i :: 0 <= i < |lines| ==> !IsAbout(lines[i], k)
  {
    if lines != [] {
      var n := |lines| - 1;
      assert !LastAbout(lines, k, n);
      assert forall i :: 0 <= i < n ==> lines[..n][i] == lines[i];
      forall i: nat ensures !LastAbout(lines[..n], k, i) {
        assert !LastAbout(lines, k, i);
      }
      NoLastNone(lines[..n], k);
    }
  }

  /** After any lines, each key is cached as the lines say last, and the version is that of the
      last line that carries one - a bookmark, or an object that cannot be parsed, included. */
  lemma {:induction false} CacheIsLatest(v: View, lines: seq<Line>, k: Key)
    ensures Find(AfterLines(v, lines).cache.view, k) == Latest(v.cache.view, lines, k)
  {
    if lines == [] {
      LatestIsLast(v.cache.view, lines, k);
    } else {
      var n := |lines| - 1;
      CacheIsLatest(v, lines[..n], k);
      LatestStep(v.cache.view, lines, k);
      hide Latest;
      OneLine(AfterLines(v, lines[..n]).cache, lines[n], k);
    }
  }

  lemma OneLine(s: CacheState, line: Line, k: Key)
    ensures Find(CacheAfter(s, line).view, k)
              == if IsAbout(line, k) then (if line.kind == DELETED then None else line.item) else Find(s.view, k)
  {}

  lemma {:induction false} VersionIsLast(v: View, lines: seq<Line>)
    ensures forall i: nat :: LastVersion(lines, i) ==> AfterLines(v, lines).version == lines[i].version
    ensures (forall i :: 0 <= i < |lines| ==> !CarriesVersion(lines[i])) ==> AfterLines(v, lines).version == v.version
  {
    if lines != [] {
      hide CacheAfter, LastVersion, CarriesVersion;
      var n := |lines| - 1;
      VersionIsLast(v, lines[..n]);
      VersionStep(AfterLines(v, lines[..n]), lines[n]);
      forall i: nat | LastVersion(lines, i)
        ensures i < |lines| && if CarriesVersion(lines[n]) then i == n else i < n && LastVersion(lines[..n], i)
      {
        LastVersionStep(lines, i);
      }
      assert forall i :: 0 <= i < n ==> lines[..n][i] == lines[i];
    }
  }

  lemma VersionStep(v: View, line: Line)
    ensures AfterLine(v, line).version == if CarriesVersion(line) then line.version else v.version
  {}

  lemma LastVersionStep(lines: seq<Line>, i: nat)
    requires LastVersion(lines, i)
    ensures i < |lines|
    ensures var n := |lines| - 1; if CarriesVersion(lines[n]) then i == n else i < n && LastVersion(lines[..n], i)
  {
    var n := |lines| - 1;
    assert forall j :: 0 <= j < n ==> lines[..n][j] == lines[j];
  }

  /** What any lines leave behind: for each key what they say about it last, and the version
      of the last line that carries one. */
  ghost predicate LinesFollow(before: View, lines: seq<Line>, after: View) {
    && (forall k :: Find(after.cache.view, k) == Latest(before.cache.view, lines, k))
    && (forall i: nat :: LastVersion(lines, i) ==> after.version == lines[i].version)
    && ((forall i :: 0 <= i < |lines| ==> !CarriesVersion(lines[i])) ==> after.version == before.version)
  }

  lemma LinesLeave(v: View, lines: seq<Line>)
    ensures LinesFollow(v, lines, AfterLines(v, lines))
  {
    hide Latest, AfterLines, LastVersion, CarriesVersion;
    VersionIsLast(v, lines);
    forall k: Key ensures Find(AfterLines(v, lines).cache.view, k) == Latest(v.cache.view, lines, k) {
      CacheIsLatest(v, lines, k);
    }
  }

  /** Line i is to be announced: an addition or a deletion always, a modification unless the
      object is cached with the same skeleton - in a namespace that is owned. */
  ghost predicate Announces(before: Flat, lines: seq<Line>, i: nat, shard: Shard) {
    && i < |lines| && lines[i].ObjectLine? && lines[i].item.Some? && Owns(shard, lines[i].item.value.ns)
    && var r := lines[i].item.value;
       var was := Latest(before, lines[..i], KeyOf(r));
       || lines[i].kind == ADDED || lines[i].kind == DELETED
       || (lines[i].kind == MODIFIED && (was.None? || was.value.skeleton != r.skeleton))
  }

  /** With the object as it is, and as it was cached. */
  ghost predicate AnnouncedBy(before: Flat, lines: seq<Line>, i: nat, e: Event) {
    && i < |lines| && lines[i].ObjectLine? && lines[i].item.Some?
    && var r := lines[i].item.value;
       var was := Latest(before, lines[..i], KeyOf(r));
       || (lines[i].kind == ADDED && e == AddEvent(r.ns, r.name, r))
       || (lines[i].kind == MODIFIED && e == UpdateEvent(r.ns, r.name, was, r))
       || (lines[i].kind == DELETED && e == DeleteEvent(r.ns, r.name, was))
  }

  /** One event for each line that announces one, in order: event n is that of line at[n]. */
  ghost predicate Announced(before: Flat, lines: seq<Line>, shard: Shard, sent: seq<Event>, at: seq<nat>) {
    && |sent| == |at| && Ascending(at)
    && (forall i: nat :: i in at <==> Announces(before, lines, i, shard))
    && forall n :: 0 <= n < |at| ==> AnnouncedBy(before, lines, at[n], sent[n])
  }

  ghost predicate Tells(before: Flat, lines: seq<Line>, shard: Shard, sent: seq<Event>) {
    exists at :: Announced(before, lines, shard, sent, at)
  }

  lemma SentTells(v: View, lines: seq<Line>, shard: Shard, before: seq<Event>)
    ensures Tells(v.cache.view, lines, shard, (before + AllSent(v, lines, shard))[|before|..])
  {
    hide Announced, AllSent;
    var at := SentIsAnnounced(v, lines, shard);
    assert (before + AllSent(v, lines, shard))[|before|..] == AllSent(v, lines, shard);
  }

  lemma {:induction false} SentIsAnnounced(v: View, lines: seq<Line>, shard: Shard) returns (at: seq<nat>)
    ensures Announced(v.cache.view, lines, shard, AllSent(v, lines, shard), at)
  {
    at := [];
    if lines != [] {
      var n, before := |lines| - 1, v.cache.view;
      at := SentIsAnnounced(v, lines[..n], shard);
      LastLineAnnounces(v, lines, shard);
      var sent, more := AllSent(v, lines[..n], shard), Sent(AfterLines(v, lines[..n]).cache.view, lines[n], shard);
      at := AnnouncedOneMore(before, lines, shard, sent, at, more);
    }
  }

  lemma AnnouncedOneMore(before: Flat, lines: seq<Line>, shard: Shard, sent: seq<Event>, at: seq<nat>, more: seq<Event>)
    returns (longer: seq<nat>)
    requires lines != [] && Announced(before, lines[..|lines| - 1], shard, sent, at)
    requires if Announces(before, lines, |lines| - 1, shard)
             then |more| == 1 && AnnouncedBy(before, lines, |lines| - 1, more[0]) else more == []
    ensures Announced(before, lines, shard, sent + more, longer)
  {
    var n, front := |lines| - 1, lines[..|lines| - 1];
    hide Announces, AnnouncedBy, Ascending;
    forall k | 0 <= k < |at| ensures at[k] < n && AnnouncedBy(before, lines, at[k], sent[k]) {
      assert at[k] in at && AnnouncedBy(before, front, at[k], sent[k]);
      FrontAnnounces(before, lines, shard, at[k]);
      FrontAnnouncedBy(before, lines, at[k], sent[k]);
    }
    forall i: nat
      ensures Announces(before, lines, i, shard) <==> i in at || (i == n && Announces(before, lines, n, shard))
    {
      FrontAnnounces(before, lines, shard, i);
    }
    if Announces(before, lines, n, shard) {
      AscendingOneMore(at, n);
      longer := at + [n];
    } else {
      assert sent + more == sent;
      longer := at;
    }
  }

  lemma AscendingOneMore(at: seq<nat>, n: nat)
    requires Ascending(at) && forall k :: 0 <= k < |at| ==> at[k] < n
    ensures Ascending(at + [n]) && forall i: nat :: i in at + [n] <==> i in at || i == n
  {}

  /** What a line announces depends on the lines before it only. */
  lemma FrontAnnounces(before: Flat, lines: seq<Line>, shard: Shard, i: nat)
    requires lines != []
    ensures Announces(before, lines[..|lines| - 1], i, shard) <==> Announces(before, lines, i, shard) && i < |lines| - 1
    ensures Announces(before, lines, i, shard) ==> i < |lines|
  {
    var n := |lines| - 1;
    if i < n {
      assert lines[..n][..i] == lines[..i] && lines[..n][i] == lines[i];
    }
  }

  lemma FrontAnnouncedBy(before: Flat, lines: seq<Line>, i: nat, e: Event)
    requires lines != [] && AnnouncedBy(before, lines[..|lines| - 1], i, e)
    ensures AnnouncedBy(before, lines, i, e)
  {
    var n := |lines| - 1;
    assert lines[..n][..i] == lines[..i] && lines[..n][i] == lines[i];
  }

  lemma LastLineAnnounces(v: View, lines: seq<Line>, shard: Shard)
    requires lines != []
    ensures var n, before := |lines| - 1, v.cache.view;
            var sent := Sent(AfterLines(v, lines[..n]).cache.view, lines[n], shard);
            if Announces(before, lines, n, shard) then |sent| == 1 && AnnouncedBy(before, lines, n, sent[0])
            else sent == []
  {
    var n := |lines| - 1;
    if lines[n].ObjectLine? && lines[n].item.Some? {
      var r := lines[n].item.value;
      CacheIsLatest(v, lines[..n], KeyOf(r));
      var was := Latest(v.cache.view, lines[..n], KeyOf(r));
      if was.Some? {
        SkeletonChangedIsProjection(was.value, r);
      }
      hide Latest, SkeletonChanged;
    }
  }

  // ----- one watch

  datatype Cause = Canceled | OtherCause

  datatype Response =
    | NoAnswer(cause: Cause)
    | Answer(status: int, lines: seq<Line>, broken: Option<Cause>)

  datatype Outcome = EndedGone | EndedWith(cause: Cause) | EndedClosed

  predicate IsGone(r: Response) {
    r.Answer? && r.status == 410
  }

  /** The lines that are read from a response. */
  function LinesIn(r: Response): seq<Line> {
    if r.Answer? && r.status == 200 then r.lines else []
  }

  /** The lines that are read from a series of responses. */
  function LinesOf(responses: seq<Response>): seq<Line> {
    if responses == [] then []
    else
      var n := |responses| - 1;
      LinesOf(responses[..n]) + LinesIn(responses[n])
  }

  lemma {:induction false} LinesOfConcat(a: seq<Response>, b: seq<Response>)
    ensures LinesOf(a + b) == LinesOf(a) + LinesOf(b)
  {
    if b == [] {
      assert a + b == a;
    } else {
      var n := |b| - 1;
      assert (a + b)[..|a + b| - 1] == a + b[..n];
      LinesOfConcat(a, b[..n]);
      Regroup(LinesOf(a), LinesOf(b[..n]), LinesIn(b[n]));
    }
  }

  lemma Regroup(a: seq<Line>, b: seq<Line>, c: seq<Line>)
    ensures (a + b) + c == a + (b + c)
  {}

  /** Response by response, in order: those with status 200 as they are, nothing of the others. */
  lemma LinesOfResponse(before: seq<Response>, r: Response, after: seq<Response>)
    ensures LinesOf(before + [r] + after)
            == LinesOf(before) + (if r.Answer? && r.status == 200 then r.lines else []) + LinesOf(after)
  {
    LinesOfConcat(before + [r], after);
    assert (before + [r])[..|before|] == before;
  }

  lemma NoLinesIfGone(r: Response)
    ensures IsGone(r) ==> LinesIn(r) == []
    ensures IsGone(r) <==> r.Answer? && r.status == 410
  {}

  lemma NothingArrives(v: View, shard: Shard)
    ensures AfterLines(v, []) == v && AllSent(v, [], shard) == []
  {}

  /** It makes no difference where a stream of lines is broken and resumed. */
  lemma {:induction false} LinesInPieces(v: View, a: seq<Line>, b: seq<Line>, shard: Shard)
    ensures AfterLines(v, a + b) == AfterLines(AfterLines(v, a), b)
    ensures AllSent(v, a + b, shard) == AllSent(v, a, shard) + AllSent(AfterLines(v, a), b, shard)
  {
    if b == [] {
      assert a + b == a;
    } else {
      var n := |b| - 1;
      assert (a + b)[..|a + b| - 1] == a + b[..n];
      LinesInPieces(v, a, b[..n], shard);
      assert (AllSent(v, a, shard) + AllSent(AfterLines(v, a), b[..n], shard))
          + Sent(AfterLines(v, a + b[..n]).cache.view, b[n], shard)
          == AllSent(v, a, shard) + AllSent(AfterLines(v, a), b, shard);
    }
  }

  /** The others, in their order. */
  function Without(subs: seq<Subscription<Event>>, s: Subscription<Event>): seq<Subscription<Event>> {
    if subs == [] then []
    else Without(subs[..|subs| - 1], s) + (if subs[|subs| - 1] != s then [subs[|subs| - 1]] else [])
  }

  lemma NothingWithout(s: Subscription<Event>)
    ensures Without([], s) == []
  {}

  lemma WithoutStep(subs: seq<Subscription<Event>>, i: nat, s: Subscription<Event>)
    requires i < |subs|
    ensures Without(subs[..i + 1], s) == Without(subs[..i], s) + (if subs[i] != s then [subs[i]] else [])
  {
    assert subs[..i + 1][..i] == subs[..i];
  }

  lemma {:induction false} WithoutKeepsTheRest(subs: seq<Subscription<Event>>, s: Subscription<Event>)
    requires forall i, j :: 0 <= i < j < |subs| ==> subs[i] != subs[j]
    ensures var rest := Without(subs, s);
            && (forall x :: x in rest <==> x in subs && x != s)
            && (forall i, j :: 0 <= i < j < |rest| ==> rest[i] != rest[j])
  {
    if subs != [] {
      var n := |subs| - 1;
      WithoutKeepsTheRest(subs[..n], s);
      assert subs == subs[..n] + [subs[n]] && subs[n] !in subs[..n];
      assert forall i :: 0 <= i < |Without(subs[..n], s)| ==> Without(subs[..n], s)[i] in Without(subs[..n], s);
    }
  }

  lemma {:induction false} WithoutOne(subs: seq<Subscription<Event>>, s: Subscription<Event>)
    requires forall i, j :: 0 <= i < j < |subs| ==> subs[i] != subs[j]
    ensures forall k :: 0 <= k < |subs| && subs[k] == s ==> Without(subs, s) == subs[..k] + subs[k + 1..]
    ensures s !in subs ==> Without(subs, s) == subs
  {
    if subs != [] {
      var n := |subs| - 1;
      WithoutOne(subs[..n], s);
      assert subs == subs[..n] + [subs[n]];
      forall k | 0 <= k < |subs| && subs[k] == s ensures Without(subs, s) == subs[..k] + subs[k + 1..] {
        if k < n {
          assert subs[..n][..k] == subs[..k] && subs[..n][k + 1..] + [subs[n]] == subs[k + 1..];
        } else {
          assert s !in subs[..n];
        }
      }
    }
  }

  class InformerImpl {
    const shard: Shard
    const cache: SkeletonCache
    var resourceVersion: Option<nat>
    var subscribers: seq<Subscription<Event>>
    var eventsTotal: nat
    var eventsByType: map<EventKind, nat>

    ghost function State(): View
      reads this, cache, cache.snapshot, cache.snapshot.items.Values
    {
      View(cache.State(), resourceVersion)
    }

    ghost predicate Valid()
      reads this, cache, cache.snapshot, cache.snapshot.items.Values, subscribers
    {
      cache.Valid() && SubscribersValid()
    }

    ghost predicate SubscribersValid()
      reads this, subscribers
    {
      && (forall i, j :: 0 <= i < j < |subscribers| ==> subscribers[i] != subscribers[j])
      && (forall s :: s in subscribers ==> s.Valid())
    }

    constructor (shard: Shard)
      ensures Valid() && State() == View(CacheState(map[], 0), None) && subscribers == []
      ensures this.shard == shard && fresh(cache) && fresh(cache.snapshot)
    {
      this.shard := shard;
      resourceVersion, subscribers, eventsTotal, eventsByType := None, [], 0, map[];
      cache := new SkeletonCache();
    }

    method Subscribe() returns (s: Subscription<Event>)
      requires Valid()
      modifies this`subscribers
      ensures Valid() && State() == old(State())
      ensures fresh(s) && subscribers == old(subscribers) + [s] && s.offered == [] && !s.stopped
    {
      hide StandsAt, Flatten, WellFormed;
      s := new Subscription();
      subscribers := subscribers + [s];
    }

    method Unsubscribe(s: Subscription<Event>)
      requires Valid() && s.Valid()
      modifies this`subscribers, s`stopped
      ensures Valid() && State() == old(State()) && s.stopped
      ensures subscribers == Without(old(subscribers), s)
      ensures forall k :: 0 <= k < |old(subscribers)| && old(subscribers)[k] == s ==>
                subscribers == old(subscribers)[..k] + old(subscribers)[k + 1..]
      ensures s !in old(subscribers) ==> subscribers == old(subscribers)
    {
      hide StandsAt, Flatten, WellFormed, Without;
      NothingWithout(s);
      s.Stop();
      var kept := [];
      for i := 0 to |subscribers|
        invariant SubscribersValid() && cache.Valid() && s.stopped
        invariant State() == old(State()) && subscribers == old(subscribers)
        invariant kept == Without(subscribers[..i], s)
      {
        WithoutStep(subscribers, i, s);
        if subscribers[i] != s {
          kept := kept + [subscribers[i]];
        }
      }
      assert subscribers[..|subscribers|] == subscribers;
      WithoutKeepsTheRest(subscribers, s);
      WithoutOne(subscribers, s);
      subscribers := kept;
    }

    /** Counts the event, and dispatches it to every subscriber if its namespace is owned. */
    method DispatchToSubscribers(ev: Event)
      requires SubscribersValid()
      modifies this`eventsTotal, this`eventsByType, subscribers
      ensures SubscribersValid()
      ensures eventsTotal == old(eventsTotal) + 1
      ensures eventsByType == Bumped(old(eventsByType), KindOf(ev))
      ensures forall kind ::
                Count(eventsByType, kind) == Count(old(eventsByType), kind)
                                             + (if || (kind.EventAdd? && ev.AddEvent?)
                                                   || (kind.EventUpdate? && ev.UpdateEvent?)
                                                   || (kind.EventDelete? && ev.DeleteEvent?) then 1 else 0)
      ensures forall s :: s in subscribers ==>
                s.offered == old(s.offered) + (if Owns(shard, ev.ns) then [ev] else [])
                && s.handled == old(s.handled) && s.stopped == old(s.stopped)
    {
      hide StandsAt, Flatten, WellFormed;
      eventsTotal := eventsTotal + 1;
      BumpEventTypeCounter(KindOf(ev));
      if shard.Some? && !shard.value(ev.ns) {
        return;
      }
      DispatchEach(subscribers, ev);
    }

    method BumpEventTypeCounter(kind: EventKind)
      modifies this`eventsByType
      ensures eventsByType == Bumped(old(eventsByType), kind)
    {
      if kind !in eventsByType {
        eventsByType := eventsByType[kind := 0];
      }
      eventsByType := eventsByType[kind := eventsByType[kind] + 1];
    }

    /** One line of a watch. The result is only logged by the caller - also for an ERROR line
        with code 410. */
    method HandleWatchLine(line: Line) returns (ok: bool)
      requires Valid()
      modifies this`resourceVersion, this`eventsTotal, this`eventsByType, cache`snapshot, subscribers
      ensures Valid() && State() == AfterLine(old(State()), line)
      ensures ok <==> line.Blank? || line.ObjectLine?
      ensures forall s :: s in subscribers ==>
                s.offered == old(s.offered) + Sent(old(State().cache.view), line, shard)
                && s.handled == old(s.handled) && s.stopped == old(s.stopped)
    {
      hide Flatten, WellFormed, AfterPut, AfterDelete, SkeletonChanged;
      if !line.ObjectLine? {
        return line.Blank?;
      }
      ok := true;
      if line.version.Some? {
        resourceVersion := line.version;
      }
      if line.item.None? {
        return;
      }
      var r := line.item.value;
      match line.kind
      case BOOKMARK =>
      case ADDED => Added(r);
      case MODIFIED => Modified(r);
      case DELETED => Deleted(r);
      case OTHER =>
    }

    /** The cases of HandleWatchLine that touch the cache. */
    method Added(r: Resource)
      requires Valid()
      modifies this`eventsTotal, this`eventsByType, cache`snapshot, subscribers
      ensures Valid() && cache.State() == AfterPut(old(cache.State()), Some(r))
      ensures forall s :: s in subscribers ==>
                s.offered == old(s.offered) + Sent(old(cache.State().view), ObjectLine(ADDED, None, Some(r)), shard)
                && s.handled == old(s.handled) && s.stopped == old(s.stopped)
    {
      hide Flatten, WellFormed, AfterPut, Sent, StandsAt;
      SentOf(cache.State().view, r, shard);
      cache.Put(Some(r));
      DispatchToSubscribers(AddEvent(r.ns, r.name, r));
    }

    method Modified(r: Resource)
      requires Valid()
      modifies this`eventsTotal, this`eventsByType, cache`snapshot, subscribers
      ensures Valid() && cache.State() == AfterPut(old(cache.State()), Some(r))
      ensures forall s :: s in subscribers ==>
                s.offered == old(s.offered) + Sent(old(cache.State().view), ObjectLine(MODIFIED, None, Some(r)), shard)
                && s.handled == old(s.handled) && s.stopped == old(s.stopped)
    {
      hide Flatten, WellFormed, AfterPut, SkeletonChanged, Sent, StandsAt;
      SentOf(cache.State().view, r, shard);
      var was := cache.Get(r.ns, r.name);
      if was.Some? && !SkeletonChanged(was, Some(r)) {
        cache.Put(Some(r));
        return;
      }
      cache.Put(Some(r));
      DispatchToSubscribers(UpdateEvent(r.ns, r.name, was, r));
    }

    method Deleted(r: Resource)
      requires Valid()
      modifies this`eventsTotal, this`eventsByType, cache`snapshot, subscribers
      ensures Valid() && cache.State() == AfterDelete(old(cache.State()), r.ns, r.name)
      ensures forall s :: s in subscribers ==>
                s.offered == old(s.offered) + Sent(old(cache.State().view), ObjectLine(DELETED, None, Some(r)), shard)
                && s.handled == old(s.handled) && s.stopped == old(s.stopped)
    {
      hide Flatten, WellFormed, AfterDelete, Sent, StandsAt;
      SentOf(cache.State().view, r, shard);
      var was := cache.Get(r.ns, r.name);
      cache.Delete(r.ns, r.name);
      assert cache.Valid() && SubscribersValid();
      DispatchToSubscribers(DeleteEvent(r.ns, r.name, was));
    }

    /** The read loop of a watch, over the lines that arrive before it ends. */
    method ReadLines(lines: seq<Line>)
      requires Valid()
      modifies this`resourceVersion, this`eventsTotal, this`eventsByType, cache`snapshot, subscribers
      ensures Valid() && State() == AfterLines(old(State()), lines)
      ensures forall s :: s in subscribers ==>
                s.offered == old(s.offered) + AllSent(old(State()), lines, shard)
                && s.handled == old(s.handled) && s.stopped == old(s.stopped)
      ensures LinesFollow(old(State()), lines, State())
      ensures forall s :: s in subscribers ==>
                old(s.offered) <= s.offered
                && Tells(old(State().cache.view), lines, shard, s.offered[|old(s.offered)|..])
    {
      hide Flatten, WellFormed, Sent, AfterLine, Tells, LinesFollow;
      for i := 0 to |lines|
        invariant Valid() && State() == AfterLines(old(State()), lines[..i])
        invariant forall s :: s in subscribers ==>
                    s.offered == old(s.offered) + AllSent(old(State()), lines[..i], shard)
                    && s.handled == old(s.handled) && s.stopped == old(s.stopped)
      {
        assert lines[..i + 1][..i] == lines[..i];
        if lines[i].Blank? {
          BlankDoesNothing(State(), shard);
          continue;
        }
        var ok := HandleWatchLine(lines[i]);
      }
      assert lines[..|lines|] == lines;
      LinesLeave(old(State()), lines);
      forall s | s in subscribers
        ensures Tells(old(State().cache.view), lines, shard, s.offered[|old(s.offered)|..])
      {
        SentTells(old(State()), lines, shard, old(s.offered));
      }
    }

    /** A watch ends as gone exactly when the response has status 410 - never because of a
        line, whatever the line says. Lines are read only from a response with status 200. */
    method DoWatch(response: Response) returns (outcome: Outcome)
      requires Valid()
      modifies this`resourceVersion, this`eventsTotal, this`eventsByType, cache`snapshot, subscribers
      ensures outcome == EndedGone <==> response.Answer? && response.status == 410
      ensures outcome == EndedWith(Canceled)
              <==> || response == NoAnswer(Canceled)
                   || (response.Answer? && response.status == 200 && response.broken == Some(Canceled))
      ensures outcome == EndedClosed <==> response.Answer? && response.status == 200 && response.broken == None
      ensures Valid() && State() == AfterLines(old(State()), LinesIn(response))
      ensures forall s :: s in subscribers ==>
                && s.offered == old(s.offered) + AllSent(old(State()), LinesIn(response), shard)
                && s.handled == old(s.handled) && s.stopped == old(s.stopped)
      ensures if response.Answer? && response.status == 200
              then LinesFollow(old(State()), response.lines, State())
              else State() == old(State())
      ensures forall s :: s in subscribers ==>
                if response.Answer? && response.status == 200
                then old(s.offered) <= s.offered
                     && Tells(old(State().cache.view), response.lines, shard, s.offered[|old(s.offered)|..])
                else s.offered == old(s.offered)
    {
      hide AfterLines, AllSent, Flatten, WellFormed, Tells, LinesFollow;
      NothingArrives(State(), shard);
      if response.NoAnswer? {
        return EndedWith(response.cause);
      }
      if response.status == 410 {
        return EndedGone;
      }
      if response.status != 200 {
        return EndedWith(OtherCause);
      }
      ReadLines(response.lines);
      if response.broken.Some? {
        return EndedWith(response.broken.value);
      }
      return EndedClosed;
    }

    /** Watch after watch, each resuming where the last one broke off, up to the first response
        that calls for a list. What the subscribers are offered is what one unbroken watch
        over all the lines would have sent. */
    method WatchUntilGone(responses: seq<Response>) returns (n: nat)
      requires Valid()
      modifies this`resourceVersion, this`eventsTotal, this`eventsByType, cache`snapshot, subscribers
      ensures n <= |responses| && forall i :: 0 <= i < n ==> !IsGone(responses[i])
      ensures n < |responses| ==> IsGone(responses[n])
      ensures Valid() && State() == AfterLines(old(State()), LinesOf(responses[..n]))
      ensures forall s :: s in subscribers ==>
                s.offered == old(s.offered) + AllSent(old(State()), LinesOf(responses[..n]), shard)
                && s.handled == old(s.handled) && s.stopped == old(s.stopped)
      ensures LinesFollow(old(State()), LinesOf(responses[..n]), State())
      ensures forall s :: s in subscribers ==>
                old(s.offered) <= s.offered
                && Tells(old(State().cache.view), LinesOf(responses[..n]), shard, s.offered[|old(s.offered)|..])
    {
      hide AfterLines, AllSent, Flatten, WellFormed, StandsAt, LinesIn, IsGone, Tells, LinesFollow;
      NothingArrives(State(), shard);
      n := 0;
      while n < |responses|
        invariant n <= |responses| && forall i :: 0 <= i < n ==> !IsGone(responses[i])
        invariant Valid() && State() == AfterLines(old(State()), LinesOf(responses[..n]))
        invariant forall s :: s in subscribers ==>
                    s.offered == old(s.offered) + AllSent(old(State()), LinesOf(responses[..n]), shard)
                    && s.handled == old(s.handled) && s.stopped == old(s.stopped)
      {
        var r := responses[n];
        ghost var lines := LinesOf(responses[..n]);
        var outcome := DoWatch(r);
        NoLinesIfGone(r);
        NothingArrives(AfterLines(old(State()), lines), shard);
        if outcome == EndedGone {
          break;
        }
        assert responses[..n + 1][..n] == responses[..n];
        LinesInPieces(old(State()), lines, LinesIn(r), shard);
        n := n + 1;
      }
      LinesLeave(old(State()), LinesOf(responses[..n]));
      forall s | s in subscribers
        ensures Tells(old(State().cache.view), LinesOf(responses[..n]), shard, s.offered[|old(s.offered)|..])
      {
        SentTells(old(State()), LinesOf(responses[..n]), shard, old(s.offered));
      }
    }

    /** All pages, then one write of the cache and of the version. */
    method DoInitialList(pages: seq<Page>) returns (ok: bool)
      requires Valid()
      modifies this`resourceVersion, cache`snapshot
      ensures Valid() && State() == AfterList(old(State()), pages)
      ensures ok <==> Fails !in pages
      ensures if ok then ListLeaves(old(State()), pages, State()) else State() == old(State())
      ensures forall s :: s in subscribers ==> s.offered == old(s.offered)
    {
      ListedView(State(), pages);
      hide Flatten, WellFormed, AfterPutBulk, ListLeaves;
      var all: seq<Option<Resource>> := [];
      var listVersion: Option<nat> := None;
      for p := 0 to |pages|
        invariant Fails !in pages[..p]
        modifies {}
        invariant all == Collected(pages[..p]) && listVersion == FirstVersion(pages[..p])
      {
        assert pages[..p + 1][..p] == pages[..p];
        if pages[p].Fails? {
          return false;
        }
        if listVersion == None {
          listVersion := pages[p].version;
        }
        var parsed := KeepParsed(pages[p].items);
        all := all + parsed;
      }
      assert pages[..|pages|] == pages;
      cache.PutBulk(all);
      resourceVersion := listVersion;
      return true;
    }
  }

  method DispatchEach(subs: seq<Subscription<Event>>, ev: Event)
    requires forall i, j :: 0 <= i < j < |subs| ==> subs[i] != subs[j]
    requires forall s :: s in subs ==> s.Valid()
    modifies subs
    ensures forall s :: s in subs ==> s.Valid() && s.offered == old(s.offered) + [ev]
    ensures forall s :: s in subs ==> s.handled == old(s.handled) && s.stopped == old(s.stopped)
  {
    hide StandsAt;
    for i := 0 to |subs|
      invariant forall s :: s in subs ==> s.Valid() && s.handled == old(s.handled) && s.stopped == old(s.stopped)
      invariant forall j :: 0 <= j < |subs| ==> subs[j].offered == old(subs[j].offered) + (if j < i then [ev] else [])
    {
      assert subs[i] in subs;
      subs[i].Dispatch(ev);
    }
  }

  lemma BlankDoesNothing(v: View, shard: Shard)
    ensures AfterLine(v, Blank) == v && Sent(v.cache.view, Blank, shard) == []
  {}

  method KeepParsed(items: seq<Option<Resource>>) returns (parsed: seq<Option<Resource>>)
    ensures parsed == Parsed(items)
  {
    parsed := [];
    for i := 0 to |items|
      invariant parsed == Parsed(items[..i])
    {
      assert items[..i + 1][..i] == items[..i];
      if items[i].None? {
        continue;
      }
      parsed := parsed + [items[i]];
    }
    assert items[..|items|] == items;
  }

  /** Leaving unparsable items out makes no difference to the cache. */
  lemma {:induction false} ParsedStoresTheSame(m: Flat, items: seq<Option<Resource>>)
    ensures PutAll(m, Parsed(items)) == PutAll(m, items)
  {
    if items != [] {
      var n := |items| - 1;
      ParsedStoresTheSame(m, items[..n]);
      if items[n].None? {
        assert Parsed(items) == Parsed(items[..n]);
      } else {
        assert Parsed(items)[..|Parsed(items)| - 1] == Parsed(items[..n]);
      }
    }
  }
}
