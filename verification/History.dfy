/**
  The informer's cache against the history of the API server
  (internal/eventstream/informer_impl.go): over any interleaving of changes, lists that
  succeed or fail, watches with and without a version, lines, bookmarks and disconnects.

  The server is modelled by its protocol: a watch from version n sends every change after n
  in order; a watch without a version first sends every live object as ADDED, each with the
  object's own version, in any order; a list shows one version at least as new as anything
  seen before. What the informer does with it is `AfterLine` and `AfterList`.

  History variables: `pos`, up to where the stream is contiguous; `hi`, the newest version
  anything in the cache can be from; `skipped`, the changes that were jumped over; `torn`,
  live keys whose cached value is out of date and that the stream has been taken past - which
  happens when a watch without version is cut while it sends the live objects.
 */
module History {
  import opened Common
  import opened Resources
  import opened ResourceCache
  import opened Informer

  /** `Unrelated` stands for a change of another resource type: versions are shared. */
  datatype Change = Set(r: Resource) | Gone(r: Resource) | Unrelated

  predicate Concerns(c: Change, k: Key) {
    !c.Unrelated? && KeyOf(c.r) == k
  }

  /** The object with key k at version i, that is, after the first i changes. */
  function At(hist: seq<Change>, i: nat, k: Key): Option<Resource>
    requires i <= |hist|
  {
    if i == 0 then None
    else if Concerns(hist[i - 1], k) then (if hist[i - 1].Set? then Some(hist[i - 1].r) else None)
    else At(hist, i - 1, k)
  }

  ghost function LiveKeys(hist: seq<Change>, i: nat): set<Key>
    requires i <= |hist|
  {
    set j | 0 <= j < i && hist[j].Set? && At(hist, i, KeyOf(hist[j].r)).Some? :: KeyOf(hist[j].r)
  }

  ghost predicate WellVersioned(hist: seq<Change>) {
    forall i :: 0 <= i < |hist| && hist[i].Set? ==> hist[i].r.version == i + 1
  }

  datatype Stream = Closed | Replaying | Priming(start: nat, todo: set<Key>)

  datatype Sys = Sys(hist: seq<Change>, v: View, stream: Stream,
                     pos: nat, hi: nat, skipped: set<nat>, torn: set<Key>)

  datatype Event =
    | ServerChange(c: Change)
    | Open
    | DeliverChange
    | DeliverInitial(k: Key)
    | InitialDone
    | Mark(line: Line)
    | Noise(line: Line)
    | Cut
    | ListOk(at: nat, pages: seq<Page>)
    | ListFails(pages: seq<Page>)

  /** The pages show the server at version `at`: every live object is an item of some page,
      every item is one, and the first version that a page carries is `at`. */
  ghost predicate Shows(pages: seq<Page>, hist: seq<Change>, at: nat)
    requires at <= |hist|
  {
    && Fails !in pages
    && (exists i: nat :: FirstVersionAt(pages, i) && pages[i].version == Some(at))
    && (forall i: nat, j: nat, r :: ListedAt(pages, i, j, r) ==> At(hist, at, KeyOf(r)) == Some(r))
    && (forall k :: At(hist, at, k).Some? ==> exists i: nat, j: nat :: ListedAt(pages, i, j, At(hist, at, k).value))
  }

  ghost predicate Enabled(s: Sys, e: Event) {
    match e
    case ServerChange(c) => c.Set? ==> c.r.version == |s.hist| + 1
    case Open => s.stream.Closed?
    case DeliverChange => s.stream.Replaying? && s.pos < |s.hist|
    case DeliverInitial(k) =>
      && s.stream.Priming? && k in s.stream.todo
      && s.stream.start <= |s.hist| && At(s.hist, s.stream.start, k).Some?
    case InitialDone => s.stream.Priming? && s.stream.todo == {}
    case Mark(line) =>
      && s.stream.Replaying? && line.ObjectLine? && (line.kind == BOOKMARK || line.item.None?)
      && (line.version.Some? ==> line.version.value <= s.pos)
    case Noise(line) => !s.stream.Closed? && !line.ObjectLine?
    case Cut => !s.stream.Closed?
    case ListOk(at, pages) => s.stream.Closed? && s.hi <= at <= |s.hist| && Shows(pages, s.hist, at)
    case ListFails(pages) => s.stream.Closed? && Fails in pages
  }

  /** The line that announces change i + 1. */
  function LineFor(hist: seq<Change>, i: nat): Line
    requires i < |hist|
  {
    match hist[i]
    case Set(r) => ObjectLine(if At(hist, i, KeyOf(r)).None? then ADDED else MODIFIED, Some(i + 1), Some(r))
    case Gone(r) => ObjectLine(DELETED, Some(i + 1), Some(r))
    case Unrelated => Blank
  }

  /** The versions after lo, up to hi. */
  ghost function Gap(lo: nat, hi: nat): (gap: set<nat>)
    ensures forall d: nat :: d in gap <==> lo < d <= hi
  {
    if hi <= lo then {} else Gap(lo, hi - 1) + {hi}
  }

  function Cached(s: Sys, k: Key): Option<Resource> {
    Find(s.v.cache.view, k)
  }

  /** What is cached for k is as of some version from lo on. */
  ghost predicate FreshFrom(s: Sys, k: Key, lo: nat) {
    exists i: nat :: lo <= i <= s.hi && i <= |s.hist| && Cached(s, k) == At(s.hist, i, k)
  }

  /** The live objects not sent yet that would have to be, as the stream resumes at u. */
  ghost function LeftBehind(s: Sys, u: nat): set<Key>
    requires s.stream.Priming?
  {
    set k | k in s.stream.todo && !FreshFrom(s, k, u)
  }

  ghost function Apply(s: Sys, e: Event): Sys
    requires Enabled(s, e)
  {
    match e
    case ServerChange(c) => s.(hist := s.hist + [c])
    case Open =>
      if s.v.version.Some? then s.(stream := Replaying, pos := s.v.version.value)
      else s.(stream := Priming(|s.hist|, LiveKeys(s.hist, |s.hist|)), hi := |s.hist|)
    case DeliverChange =>
      s.(v := AfterLine(s.v, LineFor(s.hist, s.pos)), pos := s.pos + 1, hi := Max(s.hi, s.pos + 1),
         torn := set k | k in s.torn && !Concerns(s.hist[s.pos], k))
    case DeliverInitial(k) =>
      var r := At(s.hist, s.stream.start, k).value;
      s.(v := AfterLine(s.v, ObjectLine(ADDED, Some(r.version), Some(r))),
         stream := Priming(s.stream.start, s.stream.todo - {k}), torn := s.torn - {k})
    case InitialDone =>
      s.(stream := Replaying, pos := s.stream.start, skipped := s.skipped + Gap(s.pos, s.stream.start), torn := {})
    case Mark(line) => s.(v := AfterLine(s.v, line))
    case Noise(line) => s.(v := AfterLine(s.v, line))
    case Cut =>
      if s.stream.Priming? && s.v.version.Some? then
        var u := s.v.version.value;
        s.(stream := Closed, pos := u, skipped := s.skipped + Gap(s.pos, u),
           torn := if u > s.pos then s.torn + LeftBehind(s, u) else s.torn)
      else s.(stream := Closed)
    case ListOk(at, pages) =>
      s.(v := AfterList(s.v, pages), pos := at, hi := at, skipped := s.skipped + Gap(s.pos, at), torn := {})
    case ListFails(pages) => s.(v := AfterList(s.v.(version := None), pages))
  }

  const INITIAL := Sys([], View(CacheState(map[], 0), None), Closed, 0, 0, {}, {})

  ghost predicate IsRun(states: seq<Sys>, events: seq<Event>) {
    && |states| == |events| + 1 && states[0] == INITIAL
    && forall i :: 0 <= i < |events| ==> Enabled(states[i], events[i]) && states[i + 1] == Apply(states[i], events[i])
  }

  // ----- the invariant

  /** Nothing happened to k in (lo, hi] that was not skipped. */
  ghost predicate OnlySkipped(s: Sys, k: Key, lo: nat, hi: nat)
    requires hi <= |s.hist|
  {
    forall d :: lo < d <= hi && Concerns(s.hist[d - 1], k) ==> d in s.skipped
  }

  /** What is cached for k is from version i; later changes up to the stream were skipped. */
  ghost predicate FromVersion(s: Sys, k: Key, i: nat)
    requires s.pos <= |s.hist|
  {
    i <= s.hi && i <= |s.hist| && Cached(s, k) == At(s.hist, i, k) && OnlySkipped(s, k, i, s.pos)
  }

  /** As of a version not older than the stream's position. */
  ghost predicate Fresh(s: Sys, k: Key) {
    FreshFrom(s, k, s.pos)
  }

  /** Cached, although gone as of such a version. */
  ghost predicate Orphan(s: Sys, k: Key) {
    k in s.v.cache.view && exists j: nat :: s.pos <= j <= s.hi && j <= |s.hist| && At(s.hist, j, k) == None
  }

  ghost predicate Bounds(s: Sys) {
    && WellVersioned(s.hist)
    && s.pos <= s.hi <= |s.hist|
    && (s.v.version.Some? ==> s.v.version.value <= s.hi)
    && (s.stream.Priming? ==> s.stream.start == s.hi)
    && (s.v.version.Some? && !s.stream.Priming? ==> s.v.version.value <= s.pos)
  }

  ghost predicate KeyOk(s: Sys, k: Key)
    requires Bounds(s)
  {
    && (exists i: nat :: FromVersion(s, k, i))
    && (k !in s.torn ==> Fresh(s, k) || Orphan(s, k))
    && (k in s.torn && At(s.hist, s.hi, k).Some? ==> Cached(s, k) != At(s.hist, s.hi, k))
    && (s.stream.Priming? && k !in s.stream.todo && At(s.hist, s.hi, k).Some? ==> Cached(s, k) == At(s.hist, s.hi, k))
    && (s.stream.Priming? && k in s.stream.todo ==> At(s.hist, s.hi, k).Some?)
  }

  ghost predicate Inv(s: Sys) {
    Bounds(s) && forall k :: KeyOk(s, k)
  }

  // ----- facts about histories

  lemma {:induction false} AtIsStable(hist: seq<Change>, c: Change, i: nat, k: Key)
    requires i <= |hist|
    ensures At(hist + [c], i, k) == At(hist, i, k)
  {
    if i > 0 {
      AtIsStable(hist, c, i - 1, k);
    }
  }

  /** A live object was set at its own version, and is live since. */
  lemma {:induction false} LiveSince(hist: seq<Change>, i: nat, k: Key)
    requires WellVersioned(hist) && i <= |hist| && At(hist, i, k).Some?
    ensures var r := At(hist, i, k).value;
            KeyOf(r) == k && 1 <= r.version <= i && hist[r.version - 1] == Set(r)
            && forall j :: r.version <= j < i ==> !Concerns(hist[j], k)
  {
    if !Concerns(hist[i - 1], k) {
      LiveSince(hist, i - 1, k);
    }
  }

  lemma {:induction false} Untouched(hist: seq<Change>, i: nat, j: nat, k: Key)
    requires i <= j <= |hist| && forall d :: i <= d < j ==> !Concerns(hist[d], k)
    ensures At(hist, i, k) == At(hist, j, k)
  {
    if i < j {
      Untouched(hist, i, j - 1, k);
    }
  }

  /** An object that is live at j is what was there at i exactly if the key was not touched
      in between: versions do not come back. */
  lemma SameExactlyIfUntouched(hist: seq<Change>, i: nat, j: nat, k: Key)
    requires WellVersioned(hist) && i <= j <= |hist| && At(hist, j, k).Some?
    ensures At(hist, i, k) == At(hist, j, k) <==> forall d :: i <= d < j ==> !Concerns(hist[d], k)
  {
    if At(hist, i, k) == At(hist, j, k) {
      LiveSince(hist, i, k);
      LiveSince(hist, j, k);
    } else {
      if forall d :: i <= d < j ==> !Concerns(hist[d], k) {
        Untouched(hist, i, j, k);
      }
    }
  }

  lemma LiveKeysAreLive(hist: seq<Change>, i: nat, k: Key)
    requires WellVersioned(hist) && i <= |hist|
    ensures k in LiveKeys(hist, i) <==> At(hist, i, k).Some?
  {
    if At(hist, i, k).Some? {
      LiveSince(hist, i, k);
      assert hist[At(hist, i, k).value.version - 1].Set?;
    }
  }

  /** Between a version where k is live and one where it is not, it is deleted. */
  lemma {:induction false} DeletedBetween(hist: seq<Change>, i: nat, j: nat, k: Key) returns (d: nat)
    requires i <= j <= |hist| && At(hist, i, k).Some? && At(hist, j, k).None?
    ensures i < d <= j && hist[d - 1].Gone? && Concerns(hist[d - 1], k)
  {
    if Concerns(hist[j - 1], k) {
      d := j;
    } else {
      d := DeletedBetween(hist, i, j - 1, k);
    }
  }

  // ----- every step keeps the invariant, key by key

  lemma ServerChangeKeeps(s: Sys, c: Change, k: Key)
    requires Inv(s) && Enabled(s, ServerChange(c))
    ensures Bounds(Apply(s, ServerChange(c))) && KeyOk(Apply(s, ServerChange(c)), k)
  {
    var t := Apply(s, ServerChange(c));
    assert Bounds(t);
    assert KeyOk(s, k);
    forall i: nat | i <= |s.hist| ensures At(t.hist, i, k) == At(s.hist, i, k) {
      AtIsStable(s.hist, c, i, k);
    }
    var i: nat :| FromVersion(s, k, i);
    assert FromVersion(t, k, i);
    assert Fresh(s, k) ==> Fresh(t, k);
    assert Orphan(s, k) ==> Orphan(t, k);
  }

  /** Going back, or staying, makes no demand stronger. */
  lemma GoingBackKeeps(s: Sys, t: Sys, k: Key)
    requires Bounds(s) && KeyOk(s, k) && Bounds(t)
    requires t.hist == s.hist && t.v.cache == s.v.cache && t.pos <= s.pos && t.hi >= s.hi
    requires s.skipped <= t.skipped && s.torn <= t.torn
    ensures exists i: nat :: FromVersion(t, k, i)
    ensures k !in t.torn ==> Fresh(t, k) || Orphan(t, k)
  {
    var i: nat :| FromVersion(s, k, i);
    assert FromVersion(t, k, i);
  }

  lemma OpenKeeps(s: Sys, k: Key)
    requires Inv(s) && Enabled(s, Open)
    ensures Bounds(Apply(s, Open)) && KeyOk(Apply(s, Open), k)
  {
    var t := Apply(s, Open);
    assert KeyOk(s, k);
    GoingBackKeeps(s, t, k);
    LiveKeysAreLive(s.hist, |s.hist|, k);
    if At(t.hist, t.hi, k).Some? {
      var i: nat :| FromVersion(s, k, i);
      SameExactlyIfUntouched(s.hist, i, t.hi, k);
      SameExactlyIfUntouched(s.hist, s.hi, t.hi, k);
    }
  }

  lemma DeliverChangeKeeps(s: Sys, k: Key)
    requires Inv(s) && Enabled(s, DeliverChange)
    ensures Bounds(Apply(s, DeliverChange)) && KeyOk(Apply(s, DeliverChange), k)
  {
    var t := Apply(s, DeliverChange);
    assert KeyOk(s, k);
    DeliveredChange(s, k);
    hide LineFor, AfterLine;
    if Concerns(s.hist[s.pos], k) {
      assert FromVersion(t, k, s.pos + 1) && Fresh(t, k);
    } else {
      assert At(s.hist, s.pos + 1, k) == At(s.hist, s.pos, k);
      PassingByKeeps(s, t, k);
    }
  }

  /** The stream passes a change that does not concern k. */
  lemma PassingByKeeps(s: Sys, t: Sys, k: Key)
    requires Bounds(s) && KeyOk(s, k) && s.pos < |s.hist| && !Concerns(s.hist[s.pos], k)
    requires t.hist == s.hist && t.pos == s.pos + 1 && t.hi == Max(s.hi, t.pos) && t.skipped == s.skipped
    requires Cached(t, k) == Cached(s, k)
    ensures exists i: nat :: FromVersion(t, k, i)
    ensures Fresh(s, k) ==> Fresh(t, k)
    ensures Orphan(s, k) ==> Orphan(t, k)
  {
    var i: nat :| FromVersion(s, k, i);
    assert FromVersion(t, k, i);
    if Fresh(s, k) {
      var i: nat :| s.pos <= i <= s.hi && Cached(s, k) == At(s.hist, i, k);
      assert t.pos <= Max(i, s.pos + 1) <= t.hi && Cached(t, k) == At(t.hist, Max(i, s.pos + 1), k);
    }
    if Orphan(s, k) {
      var j: nat :| s.pos <= j <= s.hi && At(s.hist, j, k) == None;
      assert t.pos <= Max(j, s.pos + 1) <= t.hi && At(t.hist, Max(j, s.pos + 1), k) == None;
    }
  }

  /** What the line of a change does to the cache. */
  lemma DeliveredChange(s: Sys, k: Key)
    requires s.pos < |s.hist|
    ensures var v := AfterLine(s.v, LineFor(s.hist, s.pos));
            && Find(v.cache.view, k) == (if Concerns(s.hist[s.pos], k) then At(s.hist, s.pos + 1, k) else Cached(s, k))
            && v.version == (if s.hist[s.pos].Unrelated? then s.v.version else Some(s.pos + 1))
  {}

  /** The line of a change is about the key of the change. */
  lemma LineForIsAbout(hist: seq<Change>, i: nat, k: Key)
    requires i < |hist|
    ensures var line := LineFor(hist, i);
            && (IsAbout(line, k) <==> Concerns(hist[i], k))
            && (IsAbout(line, k) ==> At(hist, i + 1, k) == if line.kind == DELETED then None else line.item)
            && (CarriesVersion(line) <==> !hist[i].Unrelated?)
            && (CarriesVersion(line) ==> line.version == Some(i + 1))
  {}

  ghost predicate AreLinesFor(hist: seq<Change>, pos: nat, lines: seq<Line>) {
    pos + |lines| <= |hist| && forall i :: 0 <= i < |lines| ==> lines[i] == LineFor(hist, pos + i)
  }

  lemma LatestReplays(hist: seq<Change>, pos: nat, before: Flat, lines: seq<Line>, k: Key)
    requires AreLinesFor(hist, pos, lines) && Find(before, k) == At(hist, pos, k)
    ensures Latest(before, lines, k) == At(hist, pos + |lines|, k)
  {
    hide LineFor, Latest, At, IsAbout;
    forall i | 0 <= i < |lines| ensures IsAbout(lines[i], k) <==> Concerns(hist[pos + i], k) {
      LineForIsAbout(hist, pos + i, k);
    }
    LatestIsLast(before, lines, k);
    var from := pos;
    if i: nat :| LastAbout(lines, k, i) {
      LineForIsAbout(hist, pos + i, k);
      from := pos + i + 1;
    } else {
      NoLastNone(lines, k);
    }
    forall d | from <= d < pos + |lines| ensures !Concerns(hist[d], k) {
      assert !IsAbout(lines[d - pos], k);
    }
    Untouched(hist, from, pos + |lines|, k);
  }

  /** For anything that leaves behind what the lines say: from a cache as of version `pos`, the
      lines of the next n changes lead to a cache as of version `pos` + n. */
  lemma ReadingReplays(hist: seq<Change>, pos: nat, v: View, lines: seq<Line>, after: View)
    requires AreLinesFor(hist, pos, lines) && LinesFollow(v, lines, after)
    requires forall k :: Find(v.cache.view, k) == At(hist, pos, k)
    ensures forall k :: Find(after.cache.view, k) == At(hist, pos + |lines|, k)
    ensures lines != [] && !hist[pos + |lines| - 1].Unrelated? ==> after.version == Some(pos + |lines|)
  {
    hide LineFor, Latest, At, IsAbout, CarriesVersion;
    forall k: Key ensures Find(after.cache.view, k) == At(hist, pos + |lines|, k) {
      LatestReplays(hist, pos, v.cache.view, lines, k);
    }
    if lines != [] && !hist[pos + |lines| - 1].Unrelated? {
      LineForIsAbout(hist, pos + |lines| - 1, ("", ""));
      assert LastVersion(lines, |lines| - 1);
    }
  }

  lemma DeliverInitialKeeps(s: Sys, key: Key, k: Key)
    requires Inv(s) && Enabled(s, DeliverInitial(key))
    ensures Bounds(Apply(s, DeliverInitial(key))) && KeyOk(Apply(s, DeliverInitial(key)), k)
  {
    var t := Apply(s, DeliverInitial(key));
    assert KeyOk(s, k) && KeyOk(s, key);
    LiveSince(s.hist, s.hi, key);
    if k == key {
      assert Cached(t, k) == At(t.hist, t.hi, k);
      assert FromVersion(t, k, t.hi) && Fresh(t, k);
    } else {
      assert Cached(t, k) == Cached(s, k);
      var i: nat :| FromVersion(s, k, i);
      assert FromVersion(t, k, i);
      assert Fresh(s, k) ==> Fresh(t, k);
      assert Orphan(s, k) ==> Orphan(t, k);
    }
  }

  /** Jumping forward to a position from which on nothing is lost for k. */
  lemma JumpKeeps(s: Sys, t: Sys, k: Key)
    requires Bounds(s) && KeyOk(s, k) && Bounds(t)
    requires t.hist == s.hist && t.v.cache == s.v.cache && t.pos >= s.pos && t.hi == s.hi
    requires t.skipped == s.skipped + Gap(s.pos, t.pos)
    ensures exists i: nat :: FromVersion(t, k, i)
    ensures At(s.hist, s.hi, k).None? || Cached(s, k) == At(s.hist, s.hi, k) ==> Fresh(t, k) || Orphan(t, k)
  {
    var i: nat :| FromVersion(s, k, i);
    assert FromVersion(t, k, i);
    if At(s.hist, s.hi, k).None? || Cached(s, k) == At(s.hist, s.hi, k) {
      assert t.pos <= s.hi <= t.hi;
      assert Fresh(t, k) || At(t.hist, s.hi, k) == None;
    }
  }

  lemma InitialDoneKeeps(s: Sys, k: Key)
    requires Inv(s) && Enabled(s, InitialDone)
    ensures Bounds(Apply(s, InitialDone)) && KeyOk(Apply(s, InitialDone), k)
  {
    assert KeyOk(s, k);
    JumpKeeps(s, Apply(s, InitialDone), k);
  }

  lemma LineKeeps(s: Sys, e: Event, k: Key)
    requires Inv(s) && Enabled(s, e) && (e.Mark? || e.Noise?)
    ensures Bounds(Apply(s, e)) && KeyOk(Apply(s, e), k)
  {
    var t := Apply(s, e);
    assert KeyOk(s, k);
    GoingBackKeeps(s, t, k);
  }

  lemma CutKeeps(s: Sys, k: Key)
    requires Inv(s) && Enabled(s, Cut)
    ensures Bounds(Apply(s, Cut)) && KeyOk(Apply(s, Cut), k)
  {
    var t := Apply(s, Cut);
    assert KeyOk(s, k);
    if t.pos > s.pos {
      JumpKeeps(s, t, k);
    } else {
      GoingBackKeeps(s, t, k);
    }
  }

  lemma ListOkKeeps(s: Sys, at: nat, pages: seq<Page>, k: Key)
    requires Inv(s) && Enabled(s, ListOk(at, pages))
    ensures Bounds(Apply(s, ListOk(at, pages))) && KeyOk(Apply(s, ListOk(at, pages)), k)
  {
    var t := Apply(s, ListOk(at, pages));
    assert KeyOk(s, k);
    Listed(s, at, pages, k);
    if At(s.hist, at, k).Some? || Cached(s, k) == None {
      assert FromVersion(t, k, at) && Fresh(t, k);
    } else {
      var i: nat :| FromVersion(s, k, i);
      assert FromVersion(t, k, i);
      assert Orphan(t, k) by { assert t.pos <= at <= t.hi && At(t.hist, at, k) == None; }
    }
  }

  /** What a list does to the cache: live objects are as listed, the rest stays. */
  lemma Listed(s: Sys, at: nat, pages: seq<Page>, k: Key)
    requires at <= |s.hist| && WellVersioned(s.hist) && Shows(pages, s.hist, at)
    ensures Find(AfterList(s.v, pages).cache.view, k)
              == if At(s.hist, at, k).Some? then At(s.hist, at, k) else Cached(s, k)
    ensures AfterList(s.v, pages).version == Some(at)
  {
    ListedView(s.v, pages);
    ListedVersion(s.v, s.hist, at, pages);
    hide AfterList, FirstVersionAt;
    if At(s.hist, at, k).Some? {
      LiveSince(s.hist, at, k);
      var i, j, r := LastListing(pages, k);
      assert ListedAt(pages, i, j, r);
    } else {
      assert ListsNone(pages, k);
    }
  }

  lemma ListedVersion(v: View, hist: seq<Change>, at: nat, pages: seq<Page>)
    requires at <= |hist| && Shows(pages, hist, at)
    ensures AfterList(v, pages).version == Some(at)
  {
    ListedView(v, pages);
    hide AfterList, FirstVersionAt, ListFollows;
  }

  lemma ListFailsKeeps(s: Sys, pages: seq<Page>, k: Key)
    requires Inv(s) && Enabled(s, ListFails(pages))
    ensures Bounds(Apply(s, ListFails(pages))) && KeyOk(Apply(s, ListFails(pages)), k)
  {
    assert KeyOk(s, k);
    GoingBackKeeps(s, Apply(s, ListFails(pages)), k);
  }

  lemma StepKeepsKey(s: Sys, e: Event, k: Key)
    requires Inv(s) && Enabled(s, e)
    ensures Bounds(Apply(s, e)) && KeyOk(Apply(s, e), k)
  {
    hide *;
    match e
    case ServerChange(c) => ServerChangeKeeps(s, c, k);
    case Open => OpenKeeps(s, k);
    case DeliverChange => DeliverChangeKeeps(s, k);
    case DeliverInitial(key) => DeliverInitialKeeps(s, key, k);
    case InitialDone => InitialDoneKeeps(s, k);
    case Mark(_) => LineKeeps(s, e, k);
    case Noise(_) => LineKeeps(s, e, k);
    case Cut => CutKeeps(s, k);
    case ListOk(at, pages) => ListOkKeeps(s, at, pages, k);
    case ListFails(pages) => ListFailsKeeps(s, pages, k);
  }

  lemma StepKeepsInv(s: Sys, e: Event)
    requires Inv(s) && Enabled(s, e)
    ensures Inv(Apply(s, e))
  {
    hide Apply, Enabled, KeyOk, Bounds;
    StepKeepsKey(s, e, ("", ""));
    forall k: Key ensures KeyOk(Apply(s, e), k) {
      StepKeepsKey(s, e, k);
    }
  }

  lemma {:induction false} ReachableInv(states: seq<Sys>, events: seq<Event>, n: nat)
    requires IsRun(states, events) && n < |states|
    ensures Inv(states[n])
  {
    if n > 0 {
      ReachableInv(states, events, n - 1);
      hide Inv, Enabled, Apply;
      StepKeepsInv(states[n - 1], events[n - 1]);
    } else {
      forall k: Key ensures KeyOk(INITIAL, k) {
        assert FromVersion(INITIAL, k, 0);
        assert INITIAL.pos <= 0 <= INITIAL.hi && Cached(INITIAL, k) == At(INITIAL.hist, 0, k);
      }
    }
  }

  // ----- what follows

  /** Over every history, whatever is cached for a key is what the server had at some version,
      and all that happened to the key since, up to where the stream is, was skipped. The
      version from which the informer would resume is one whose changes it has all been
      sent or has skipped; if that is the newest version it has seen, the stream has caught up. */
  lemma NothingIsMadeUp(states: seq<Sys>, events: seq<Event>, n: nat, k: Key)
    requires IsRun(states, events) && n < |states|
    ensures states[n].pos <= states[n].hi <= |states[n].hist|
    ensures exists i: nat :: FromVersion(states[n], k, i)
    ensures states[n].v.version.Some? && !states[n].stream.Priming? ==> states[n].v.version.value <= states[n].pos
    ensures states[n].v.version == Some(states[n].hi) && !states[n].stream.Priming? ==> states[n].pos == states[n].hi
  {
    ReachableInv(states, events, n);
    assert KeyOk(states[n], k);
  }

  /** The promise, for a stream that has caught up with all that is in the cache: every live
      object is cached as it is now exactly unless its key is torn; and a cached key that is
      not live was deleted in a gap that was skipped. */
  lemma CaughtUpCacheIsCurrent(states: seq<Sys>, events: seq<Event>, n: nat, k: Key)
    requires IsRun(states, events) && n < |states|
    requires states[n].pos == states[n].hi
    ensures states[n].hi <= |states[n].hist|
    ensures At(states[n].hist, states[n].pos, k).Some? ==>
              (Cached(states[n], k) == At(states[n].hist, states[n].pos, k) <==> k !in states[n].torn)
    ensures k in states[n].v.cache.view && At(states[n].hist, states[n].pos, k).None? ==>
              exists d :: d in states[n].skipped && 0 < d <= states[n].pos
                          && states[n].hist[d - 1].Gone? && Concerns(states[n].hist[d - 1], k)
  {
    var s := states[n];
    ReachableInv(states, events, n);
    assert KeyOk(s, k);
    if k in s.v.cache.view && At(s.hist, s.pos, k).None? {
      var i: nat :| FromVersion(s, k, i);
      assert i < s.pos;
      var d := DeletedBetween(s.hist, i, s.pos, k);
      assert d in s.skipped;
    }
  }

  /** Up to where the informer has been told about k: the change of the last line about it, or
      the version that the last list or watch without version showed it at. */
  ghost function LastSent(states: seq<Sys>, events: seq<Event>, n: nat, k: Key): nat
    requires IsRun(states, events) && n < |states|
  {
    if n == 0 then 0
    else SentBy(states[n - 1], events[n - 1], k, LastSent(states, events, n - 1, k))
  }

  ghost function SentBy(s: Sys, e: Event, k: Key, before: nat): nat
    requires Enabled(s, e)
  {
    match e
    case DeliverChange => if Concerns(s.hist[s.pos], k) then s.pos + 1 else before
    case DeliverInitial(key) => if key == k then s.stream.start else before
    case ListOk(at, _) => if At(s.hist, at, k).Some? then at else before
    case _ => before
  }

  lemma {:induction false} CachedAsLastSent(states: seq<Sys>, events: seq<Event>, n: nat, k: Key)
    requires IsRun(states, events) && n < |states|
    ensures LastSent(states, events, n, k) <= states[n].hi <= |states[n].hist|
    ensures Cached(states[n], k) == At(states[n].hist, LastSent(states, events, n, k), k)
  {
    ReachableInv(states, events, n);
    if n > 0 {
      CachedAsLastSent(states, events, n - 1, k);
      ReachableInv(states, events, n - 1);
      LastSentStep(states[n - 1], events[n - 1], k, LastSent(states, events, n - 1, k));
    }
  }

  lemma LastSentStep(s: Sys, e: Event, k: Key, before: nat)
    requires Inv(s) && Enabled(s, e)
    requires before <= s.hi && Cached(s, k) == At(s.hist, before, k)
    ensures SentBy(s, e, k, before) <= Apply(s, e).hi <= |Apply(s, e).hist|
    ensures Cached(Apply(s, e), k) == At(Apply(s, e).hist, SentBy(s, e, k, before), k)
  {
    assert KeyOk(s, k);
    match e
    case ServerChange(c) => AtIsStable(s.hist, c, before, k);
    case DeliverChange => DeliveredChange(s, k);
    case DeliverInitial(key) => assert KeyOk(s, key); LiveSince(s.hist, s.hi, key);
    case ListOk(at, pages) => Listed(s, at, pages, k);
    case _ =>
  }

  /** Exactly when the promise holds, against any version of the server not older than what
      the informer was last told about k - so in particular the newest: a live object is
      cached as it is if and only if k has not been touched since it was told; and a key that
      is not live is cached if and only if it was live then. */
  lemma CurrentExactlyIfToldOfTheLastChange(states: seq<Sys>, events: seq<Event>, n: nat, k: Key, at: nat)
    requires IsRun(states, events) && n < |states|
    requires LastSent(states, events, n, k) <= at <= |states[n].hist|
    ensures At(states[n].hist, at, k).Some? ==>
              (Cached(states[n], k) == At(states[n].hist, at, k)
               <==> forall d :: LastSent(states, events, n, k) <= d < at ==> !Concerns(states[n].hist[d], k))
    ensures At(states[n].hist, at, k).None? ==>
              (k in states[n].v.cache.view <==> At(states[n].hist, LastSent(states, events, n, k), k).Some?)
  {
    ReachableInv(states, events, n);
    CachedAsLastSent(states, events, n, k);
    if At(states[n].hist, at, k).Some? {
      SameExactlyIfUntouched(states[n].hist, LastSent(states, events, n, k), at, k);
    }
  }

  /** As long as lists have succeeded since one did - never mind disconnects - no key is torn,
      every watch resumes from a version, and only lists have skipped anything since. */
  lemma {:induction false} ListsThatSucceedTearNothing(states: seq<Sys>, events: seq<Event>, m: nat, n: nat)
    requires IsRun(states, events) && m < n < |states| && events[m].ListOk?
    requires forall i :: m < i < n ==> !events[i].ListFails?
    ensures states[n].torn == {} && states[n].v.version.Some? && !states[n].stream.Priming?
    ensures forall d :: d in states[n].skipped ==>
              d in states[m].skipped || exists i :: m <= i < n && events[i].ListOk? && states[i].pos < d <= events[i].at
    decreases n
  {
    if n == m + 1 {
      AfterAGoodList(states[m], events[m]);
    } else {
      ListsThatSucceedTearNothing(states, events, m, n - 1);
      StaysWhole(states[n - 1], events[n - 1]);
      hide Enabled, Apply, Gap;
      assert forall d :: d in states[n].skipped ==>
               d in states[n - 1].skipped || (events[n - 1].ListOk? && states[n - 1].pos < d <= events[n - 1].at);
    }
  }

  lemma AfterAGoodList(s: Sys, e: Event)
    requires Enabled(s, e) && e.ListOk?
    ensures var t := Apply(s, e);
            && t.torn == {} && t.v.version == Some(e.at) && t.stream == Closed
            && forall d :: d in t.skipped ==> d in s.skipped || s.pos < d <= e.at
  {
    hide AfterList, Shows;
    ListedVersion(s.v, s.hist, e.at, e.pages);
  }

  lemma StaysWhole(s: Sys, e: Event)
    requires Enabled(s, e) && !e.ListFails? && s.torn == {} && s.v.version.Some? && !s.stream.Priming?
    ensures var t := Apply(s, e);
            && t.torn == {} && t.v.version.Some? && !t.stream.Priming?
            && forall d :: d in t.skipped ==> d in s.skipped || (e.ListOk? && s.pos < d <= e.at)
  {
    if e.DeliverChange? {
      assert Apply(s, e).torn == {};
    }
    if e.ListOk? {
      hide Shows;
      ListedVersion(s.v, s.hist, e.at, e.pages);
    }
  }

  /** Neither the stream breaking nor a list. */
  predicate WithinOneWatch(e: Event) {
    e.ServerChange? || e.DeliverChange? || e.Mark? || e.Noise?
  }

  /** What a stale key needs: within one watch, from where it resumes, a key is cached as of
      the stream's position if and only if it was so at the start or the watch has sent a
      change to it. */
  lemma {:induction false} WatchRepairsExactlyWhatChanges(states: seq<Sys>, events: seq<Event>, m: nat, n: nat, k: Key)
    requires IsRun(states, events) && m <= n < |states| && states[m].stream.Replaying?
    requires forall i :: m <= i < n ==> WithinOneWatch(events[i])
    ensures states[m].pos <= states[n].pos <= |states[n].hist| && states[n].stream.Replaying?
    ensures states[m].pos <= |states[m].hist|
    ensures Cached(states[n], k) == At(states[n].hist, states[n].pos, k)
            <==> || Cached(states[m], k) == At(states[m].hist, states[m].pos, k)
                 || exists j :: states[m].pos <= j < states[n].pos && Concerns(states[n].hist[j], k)
  {
    hide Inv;
    WithinBounds(states, events, m);
    if m < n {
      var s, t, e := states[n - 1], states[n], events[n - 1];
      WatchRepairsExactlyWhatChanges(states, events, m, n - 1, k);
      WatchStep(s, e, k);
      hide At, Apply, Enabled;
    }
  }

  lemma WithinBounds(states: seq<Sys>, events: seq<Event>, n: nat)
    requires IsRun(states, events) && n < |states|
    ensures states[n].pos <= |states[n].hist|
  {
    ReachableInv(states, events, n);
  }

  lemma WatchStep(s: Sys, e: Event, k: Key)
    requires s.stream.Replaying? && s.pos <= |s.hist| && Enabled(s, e) && WithinOneWatch(e)
    ensures var t := Apply(s, e);
            && s.pos <= t.pos <= s.pos + 1 && t.pos <= |t.hist| && t.stream.Replaying?
            && |s.hist| <= |t.hist| && (forall j :: 0 <= j < |s.hist| ==> t.hist[j] == s.hist[j])
            && (Cached(t, k) == At(t.hist, t.pos, k)
                <==> Cached(s, k) == At(s.hist, s.pos, k) || (t.pos > s.pos && Concerns(t.hist[s.pos], k)))
  {
    match e
    case ServerChange(c) => AtIsStable(s.hist, c, s.pos, k);
    case DeliverChange => DeliveredChange(s, k);
    case Mark(_) =>
    case Noise(_) =>
  }

  /** Two objects, a first list that fails, and a watch that, having no version, is to send the
      live objects. */
  lemma WatchWithoutVersion(a: Resource, b: Resource)
    requires a.version == 1 && b.version == 2 && KeyOf(a) != KeyOf(b)
    ensures var s1, s2 := INITIAL.(hist := [Set(a)]), INITIAL.(hist := [Set(a), Set(b)]);
            && Enabled(INITIAL, ServerChange(Set(a))) && Apply(INITIAL, ServerChange(Set(a))) == s1
            && Enabled(s1, ServerChange(Set(b))) && Apply(s1, ServerChange(Set(b))) == s2
            && Enabled(s2, ListFails([Fails])) && Apply(s2, ListFails([Fails])) == s2
            && Enabled(s2, Open) && Apply(s2, Open) == s2.(stream := Priming(2, {KeyOf(a), KeyOf(b)}), hi := 2)
  {
    var hist := [Set(a), Set(b)];
    assert [Fails][0] == Fails;
    forall k ensures k in LiveKeys(hist, 2) <==> k == KeyOf(a) || k == KeyOf(b) {
      LiveKeysAreLive(hist, 2, k);
      assert At(hist, 1, k) == if k == KeyOf(a) then Some(a) else None;
    }
    assert LiveKeys(hist, 2) == {KeyOf(a), KeyOf(b)};
  }

  /** It sends the newer object, breaks, and is resumed from that one's version. */
  lemma BreaksAfterTheNewer(a: Resource, b: Resource)
    requires a.version == 1 && b.version == 2 && KeyOf(a) != KeyOf(b)
    ensures var s := INITIAL.(hist := [Set(a), Set(b)], stream := Priming(2, {KeyOf(a), KeyOf(b)}), hi := 2);
            var t := s.(v := View(CacheState(map[KeyOf(b) := b], 1), Some(2)), stream := Priming(2, {KeyOf(a)}));
            && Enabled(s, DeliverInitial(KeyOf(b))) && Apply(s, DeliverInitial(KeyOf(b))) == t
            && Enabled(t, Cut) && Apply(t, Cut).hist == t.hist && Apply(t, Cut).v == t.v
            && Apply(t, Cut).stream == Closed && Apply(t, Cut).pos == Apply(t, Cut).hi == 2
  {
    var s := INITIAL.(hist := [Set(a), Set(b)], stream := Priming(2, {KeyOf(a), KeyOf(b)}), hi := 2);
    assert At(s.hist, 2, KeyOf(b)) == Some(b);
    assert s.stream.todo - {KeyOf(b)} == {KeyOf(a)};
    assert s.torn - {KeyOf(b)} == s.torn;
    assert AfterLine(s.v, ObjectLine(ADDED, Some(2), Some(b))) == View(CacheState(map[KeyOf(b) := b], 1), Some(2));
  }

  /** The promise fails otherwise. The first list fails; the watch, having no version, sends
      the live objects; it breaks after the newer of two; the watch resumes from that one's
      version - and the other, live all the time, stays missing although the stream has
      caught up with the server. */
  lemma BrokenPrimingLosesALiveObject(skeleton: Skeleton) returns (states: seq<Sys>, events: seq<Event>)
    ensures IsRun(states, events) && |states| > 0
    ensures var s := states[|states| - 1];
            && s.stream.Replaying? && s.pos == s.hi == |s.hist| && s.v.version == Some(s.pos)
            && At(s.hist, s.pos, ("ns", "a")).Some? && ("ns", "a") !in s.v.cache.view
  {
    var a, b := Resource("ns", "a", 1, skeleton), Resource("ns", "b", 2, skeleton);
    var s2 := INITIAL.(hist := [Set(a), Set(b)]);
    var s4 := s2.(stream := Priming(2, {KeyOf(a), KeyOf(b)}), hi := 2);
    var s5 := s4.(v := View(CacheState(map[KeyOf(b) := b], 1), Some(2)), stream := Priming(2, {KeyOf(a)}));
    WatchWithoutVersion(a, b);
    BreaksAfterTheNewer(a, b);
    var s6 := Apply(s5, Cut);
    Resumes(s6, 2);
    assert At(s2.hist, 1, KeyOf(a)) == Some(a) && At(s2.hist, 2, KeyOf(a)) == Some(a);
    hide Apply, Enabled, At;
    states := [INITIAL, INITIAL.(hist := [Set(a)]), s2, s2, s4, s5, s6, Apply(s6, Open)];
    events := [ServerChange(Set(a)), ServerChange(Set(b)), ListFails([Fails]), Open,
               DeliverInitial(KeyOf(b)), Cut, Open];
  }

  lemma Resumes(s: Sys, n: nat)
    requires s.stream.Closed? && s.v.version == Some(n)
    ensures Enabled(s, Open) && Apply(s, Open) == s.(stream := Replaying, pos := n)
  {}
}
