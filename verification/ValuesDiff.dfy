/**
  The comparison of two trees of Helm values (cmd/kp/diff.go, diffValues): a recursion over
  nested maps that reports removed, changed and added keys. Leaves are compared by their
  text, so `render` (fmt's %v) is a parameter and need not be injective.
 */
module ValuesDiff {
  import opened Common

  datatype Value =
    | Null
    | Bool(b: bool)
    | Number(n: int)
    | Text(s: string)
    | List(items: seq<Value>)
    | Map(fields: map<string, Value>)

  type Fields = map<string, Value>

  datatype Change =
    | Removed(path: seq<string>, was: Value)
    | Changed(path: seq<string>, was: Value, now: Value)
    | Added(path: seq<string>, now: Value)

  predicate BothMaps(a: Value, b: Value) {
    a.Map? && b.Map?
  }

  /** What counts as a difference, by its path alone. */
  predicate IsChange(from: Fields, upto: Fields, render: Value -> string, c: Change)
    decreases |c.path|
  {
    if c.path == [] then false
    else
      var k := c.path[0];
      if |c.path| == 1 then
        match c
        case Removed(_, was) => k in from && k !in upto && was == from[k]
        case Added(_, now) => k !in from && k in upto && now == upto[k]
        case Changed(_, was, now) =>
          && k in from && k in upto && !BothMaps(from[k], upto[k])
          && was == from[k] && now == upto[k] && render(was) != render(now)
      else
        && k in from && k in upto && BothMaps(from[k], upto[k])
        && IsChange(from[k].fields, upto[k].fields, render, Below(c))
  }

  /** The same change, seen from one level down. */
  function Below(c: Change): Change
    requires c.path != []
  {
    c.(path := c.path[1..])
  }

  function Above(k: string, c: Change): Change {
    c.(path := [k] + c.path)
  }

  /** Nothing the comparison could see. */
  ghost predicate Indistinct(from: Fields, upto: Fields, render: Value -> string)
    decreases Map(from)
  {
    && from.Keys == upto.Keys
    && forall k :: k in from ==>
         if BothMaps(from[k], upto[k]) then Indistinct(from[k].fields, upto[k].fields, render)
         else render(from[k]) == render(upto[k])
  }

  ghost predicate Injective(render: Value -> string) {
    forall a, b :: render(a) == render(b) ==> a == b
  }

  lemma {:induction false} NothingToSee(from: Fields, upto: Fields, render: Value -> string, c: Change)
    requires Indistinct(from, upto, render)
    ensures !IsChange(from, upto, render, c)
    decreases |c.path|
  {
    if |c.path| > 1 && c.path[0] in from && BothMaps(from[c.path[0]], upto[c.path[0]]) {
      NothingToSee(from[c.path[0]].fields, upto[c.path[0]].fields, render, Below(c));
    }
  }

  lemma {:induction false} SomethingToSee(from: Fields, upto: Fields, render: Value -> string) returns (c: Change)
    requires !Indistinct(from, upto, render)
    ensures IsChange(from, upto, render, c)
    decreases Map(from)
  {
    if k :| k in from && k !in upto {
      c := Removed([k], from[k]);
    } else if k :| k in upto && k !in from {
      c := Added([k], upto[k]);
    } else {
      assert from.Keys == upto.Keys;
      var k :| k in from && !(if BothMaps(from[k], upto[k]) then Indistinct(from[k].fields, upto[k].fields, render)
                              else render(from[k]) == render(upto[k]));
      if BothMaps(from[k], upto[k]) {
        var d := SomethingToSee(from[k].fields, upto[k].fields, render);
        c := Above(k, d);
        assert Below(c) == d;
      } else {
        c := Changed([k], from[k], upto[k]);
      }
    }
  }

  lemma {:induction false} IndistinctIsEqual(from: Fields, upto: Fields, render: Value -> string)
    requires Injective(render)
    ensures Indistinct(from, upto, render) <==> from == upto
    decreases Map(from)
  {
    forall k | k in from && k in upto && BothMaps(from[k], upto[k])
      ensures Indistinct(from[k].fields, upto[k].fields, render) <==> from[k] == upto[k]
    {
      IndistinctIsEqual(from[k].fields, upto[k].fields, render);
    }
  }

  /** A path is reported in one way only. */
  lemma {:induction false} OneChangePerPath(from: Fields, upto: Fields, render: Value -> string, c: Change, d: Change)
    requires IsChange(from, upto, render, c) && IsChange(from, upto, render, d) && c.path == d.path
    ensures c == d
    decreases |c.path|
  {
    if |c.path| > 1 {
      OneChangePerPath(from[c.path[0]].fields, upto[c.path[0]].fields, render, Below(c), Below(d));
    }
  }

  // ----- labels: the dotted paths that are printed

  function Dotted(prefix: string, k: string): string {
    if prefix != "" then prefix + "." + k else k
  }

  function Label(path: seq<string>): string {
    if path == [] then "" else Dotted(Label(path[..|path| - 1]), path[|path| - 1])
  }

  // ----- the recursion itself

  datatype Entry = Entry(key: string, change: Change)

  /** A reported entry for what lies at or below key k of the node at path `at`. */
  predicate ReportedAt(from: Fields, upto: Fields, render: Value -> string, at: seq<string>, k: string, e: Entry) {
    && |e.change.path| > |at| && e.change.path[..|at|] == at && e.change.path[|at|] == k
    && IsChange(from, upto, render, e.change.(path := e.change.path[|at|..]))
    && e.key == Label(e.change.path)
  }

  /** `prefix` is the printed form of `at`. The keys come in whatever order the maps give
      them; each change is reported exactly once. */
  method DiffValues(from: Fields, upto: Fields, render: Value -> string, at: seq<string>, prefix: string)
    returns (diffs: seq<Entry>)
    requires prefix == Label(at)
    ensures NoDup(diffs)
    ensures forall e :: e in diffs <==> exists k :: ReportedAt(from, upto, render, at, k, e)
    decreases Map(from), 1
  {
    diffs := [];
    var seen: set<string> := {};
    var todo := from.Keys;
    while todo != {}
      invariant todo <= from.Keys && seen == from.Keys - todo
      invariant NoDup(diffs)
      invariant forall e :: e in diffs <==> exists k :: k in seen && ReportedAt(from, upto, render, at, k, e)
      decreases todo
    {
      var k :| k in todo;
      var more := DiffKey(from, upto, render, at, prefix, k);
      Appended(from, upto, render, at, diffs, more, seen, k);
      diffs := diffs + more;
      seen := seen + {k};
      todo := todo - {k};
    }
    todo := upto.Keys;
    while todo != {}
      invariant todo <= upto.Keys && seen == from.Keys
      invariant NoDup(diffs)
      invariant forall e :: e in diffs <==>
                  exists k :: k in seen + (upto.Keys - todo) && ReportedAt(from, upto, render, at, k, e)
      decreases todo
    {
      var k :| k in todo;
      ghost var done := seen + (upto.Keys - todo);
      todo := todo - {k};
      if k in seen {
        assert seen + (upto.Keys - todo) == done;
        continue;
      }
      var e := Entry(Dotted(prefix, k), Added(at + [k], upto[k]));
      OneLevel(from, upto, render, at, k);
      Appended(from, upto, render, at, diffs, [e], done, k);
      diffs := diffs + [e];
      assert seen + (upto.Keys - todo) == done + {k};
    }
    forall e, k | ReportedAt(from, upto, render, at, k, e) ensures k in seen + (upto.Keys - todo) {
    }
  }

  /** What the first loop appends for one key. */
  method DiffKey(from: Fields, upto: Fields, render: Value -> string, at: seq<string>, prefix: string, k: string)
    returns (more: seq<Entry>)
    requires prefix == Label(at) && k in from
    ensures NoDup(more) && forall e :: e in more <==> ReportedAt(from, upto, render, at, k, e)
    decreases Map(from), 0
  {
    var key := Dotted(prefix, k);
    OneLevel(from, upto, render, at, k);
    if k !in upto {
      return [Entry(key, Removed(at + [k], from[k]))];
    }
    if BothMaps(from[k], upto[k]) {
      more := DiffValues(from[k].fields, upto[k].fields, render, at + [k], key);
      forall e ensures e in more <==> ReportedAt(from, upto, render, at, k, e) {
        OneDown(from, upto, render, at, k, e);
      }
      return;
    }
    if render(from[k]) != render(upto[k]) {
      return [Entry(key, Changed(at + [k], from[k], upto[k]))];
    }
    return [];
  }

  /** At a key that is not a map on both sides, at most one entry is due. */
  lemma OneLevel(from: Fields, upto: Fields, render: Value -> string, at: seq<string>, k: string)
    ensures Label(at + [k]) == Dotted(Label(at), k)
    ensures k in from && k !in upto ==>
              forall e :: ReportedAt(from, upto, render, at, k, e)
                          <==> e == Entry(Label(at + [k]), Removed(at + [k], from[k]))
    ensures k !in from && k in upto ==>
              forall e :: ReportedAt(from, upto, render, at, k, e)
                          <==> e == Entry(Label(at + [k]), Added(at + [k], upto[k]))
    ensures k in from && k in upto && !BothMaps(from[k], upto[k]) ==>
              forall e :: ReportedAt(from, upto, render, at, k, e) <==>
                          render(from[k]) != render(upto[k])
                          && e == Entry(Label(at + [k]), Changed(at + [k], from[k], upto[k]))
  {
    assert (at + [k])[..|at|] == at;
    if k !in from || k !in upto || !BothMaps(from[k], upto[k]) {
      forall e | ReportedAt(from, upto, render, at, k, e) ensures e.change.path == at + [k] {
        var rest := e.change.path[|at|..];
        assert |rest| == 1;
        assert e.change.path == at + rest;
      }
      assert (at + [k])[|at|..] == [k];
    }
  }

  lemma OneDown(from: Fields, upto: Fields, render: Value -> string, at: seq<string>, k: string, e: Entry)
    requires k in from && k in upto && BothMaps(from[k], upto[k])
    ensures ReportedAt(from, upto, render, at, k, e)
            <==> exists j :: ReportedAt(from[k].fields, upto[k].fields, render, at + [k], j, e)
  {
    var p := e.change.path;
    if |p| > |at| + 1 {
      assert p[..|at| + 1] == p[..|at|] + [p[|at|]];
      assert (at + [k])[..|at|] == at;
      assert p[..|at| + 1] == at + [k] <==> p[..|at|] == at && p[|at|] == k;
      assert p[|at|..][1..] == p[|at| + 1..];
      var c := e.change.(path := p[|at|..]);
      assert Below(c) == e.change.(path := p[|at| + 1..]);
      assert ReportedAt(from, upto, render, at, k, e)
             <==> ReportedAt(from[k].fields, upto[k].fields, render, at + [k], p[|at| + 1], e);
    }
  }

  lemma Appended(from: Fields, upto: Fields, render: Value -> string, at: seq<string>,
                 diffs: seq<Entry>, more: seq<Entry>, done: set<string>, k: string)
    requires k !in done && NoDup(diffs) && NoDup(more)
    requires forall e :: e in diffs <==> exists j :: j in done && ReportedAt(from, upto, render, at, j, e)
    requires forall e :: e in more <==> ReportedAt(from, upto, render, at, k, e)
    ensures NoDup(diffs + more)
    ensures forall e :: e in diffs + more <==> exists j :: j in done + {k} && ReportedAt(from, upto, render, at, j, e)
  {
    forall i, j | 0 <= i < |diffs| && 0 <= j < |more| ensures diffs[i] != more[j] {
      assert diffs[i] in diffs && more[j] in more;
    }
    forall e ensures e in diffs + more <==> exists j :: j in done + {k} && ReportedAt(from, upto, render, at, j, e) {
      if e in more {
        assert ReportedAt(from, upto, render, at, k, e);
      }
    }
  }

  // ----- what the report is good for

  function Patch(m: Fields, c: Change): Fields
    decreases |c.path|
  {
    if c.path == [] then m
    else
      var k := c.path[0];
      if |c.path| == 1 then (if c.Removed? then m - {k} else m[k := c.now])
      else if k in m && m[k].Map? then m[k := Map(Patch(m[k].fields, Below(c)))]
      else m
  }

  function PatchAll(m: Fields, cs: seq<Change>): Fields
    decreases |cs|
  {
    if cs == [] then m else PatchAll(Patch(m, cs[0]), cs[1..])
  }

  /** Applying one of the changes removes that change, and no other, from the comparison. */
  lemma {:induction false} PatchSettlesOne(m: Fields, upto: Fields, render: Value -> string, c: Change, d: Change)
    requires IsChange(m, upto, render, c)
    ensures IsChange(Patch(m, c), upto, render, d) <==> IsChange(m, upto, render, d) && d != c
    decreases |c.path|
  {
    var k := c.path[0];
    if |c.path| == 1 {
      PatchSettlesHere(m, upto, render, c, d);
    } else if d.path == [] || d.path[0] != k || |d.path| == 1 {
      UntouchedAtThisLevel(m, Patch(m, c), upto, render, k, d);
    } else {
      PatchSettlesOne(m[k].fields, upto[k].fields, render, Below(c), Below(d));
      SameBelow(c, d);
    }
  }

  lemma SameBelow(c: Change, d: Change)
    requires c.path != [] && d.path != [] && c.path[0] == d.path[0]
    ensures c == d <==> Below(c) == Below(d)
  {
    assert c.path == [c.path[0]] + c.path[1..] && d.path == [d.path[0]] + d.path[1..];
  }

  /** A change inside the map at key k changes nothing that is seen at other keys, and
      nothing that is seen at k itself. */
  lemma UntouchedAtThisLevel(m: Fields, n: Fields, upto: Fields, render: Value -> string, k: string, d: Change)
    requires k in m && m[k].Map? && k in upto && upto[k].Map? && n.Keys == m.Keys && n[k].Map?
    requires forall j :: j in m && j != k ==> n[j] == m[j]
    requires d.path == [] || d.path[0] != k || |d.path| == 1
    ensures IsChange(n, upto, render, d) <==> IsChange(m, upto, render, d)
    ensures d.path != [] && d.path[0] == k ==> !IsChange(m, upto, render, d)
  {}

  lemma PatchSettlesHere(m: Fields, upto: Fields, render: Value -> string, c: Change, d: Change)
    requires IsChange(m, upto, render, c) && |c.path| == 1
    ensures IsChange(Patch(m, c), upto, render, d) <==> IsChange(m, upto, render, d) && d != c
  {
    hide Indistinct;
    var k := c.path[0];
    assert c.path == [k];
    if d.path != [] && d.path[0] == k {
      if |d.path| > 1 && k in upto && upto[k].Map? && !c.Removed? {
        Same(upto[k].fields, render);
        NothingToSee(upto[k].fields, upto[k].fields, render, Below(d));
      } else if |d.path| == 1 {
        assert d.path == [k];
      }
    }
  }

  lemma {:induction false} Same(m: Fields, render: Value -> string)
    ensures Indistinct(m, m, render)
    decreases Map(m)
  {
    forall k | k in m && BothMaps(m[k], m[k]) ensures Indistinct(m[k].fields, m[k].fields, render) {
      Same(m[k].fields, render);
    }
  }

  /** Applying all the changes, in whatever order they were reported, leads to a tree that
      cannot be told from the target. */
  lemma {:induction false} PatchAllReachesTarget(m: Fields, upto: Fields, render: Value -> string, cs: seq<Change>)
    requires NoDup(cs) && forall c :: c in cs <==> IsChange(m, upto, render, c)
    ensures Indistinct(PatchAll(m, cs), upto, render)
    decreases |cs|
  {
    if cs == [] {
      if !Indistinct(m, upto, render) {
        var c := SomethingToSee(m, upto, render);
        assert false;
      }
    } else {
      assert cs[0] in cs;
      forall d ensures d in cs[1..] <==> IsChange(Patch(m, cs[0]), upto, render, d) {
        PatchSettlesOne(m, upto, render, cs[0], d);
        assert cs == [cs[0]] + cs[1..];
      }
      PatchAllReachesTarget(Patch(m, cs[0]), upto, render, cs[1..]);
    }
  }

  /** The two promises, for any complete report without repetitions: it is empty exactly when
      the trees cannot be told apart, and applying it to `from` gives such a tree - with an
      injective rendering of values, exactly when they are equal, and exactly `upto`. */
  lemma ReportIsExact(from: Fields, upto: Fields, render: Value -> string, cs: seq<Change>)
    requires NoDup(cs) && forall c :: c in cs <==> IsChange(from, upto, render, c)
    ensures cs == [] <==> Indistinct(from, upto, render)
    ensures Indistinct(PatchAll(from, cs), upto, render)
    ensures Injective(render) ==> (cs == [] <==> from == upto) && PatchAll(from, cs) == upto
  {
    PatchAllReachesTarget(from, upto, render, cs);
    if Indistinct(from, upto, render) && cs != [] {
      assert cs[0] in cs;
      NothingToSee(from, upto, render, cs[0]);
    }
    if Injective(render) {
      IndistinctIsEqual(from, upto, render);
      IndistinctIsEqual(PatchAll(from, cs), upto, render);
    }
  }

  function ChangesOf(diffs: seq<Entry>): (cs: seq<Change>)
    ensures |cs| == |diffs| && forall i :: 0 <= i < |diffs| ==> cs[i] == diffs[i].change
  {
    seq(|diffs|, i requires 0 <= i < |diffs| => diffs[i].change)
  }

  /** At the root an entry is reported exactly for a change, under the label of its path. */
  lemma ReportedAtRoot(from: Fields, upto: Fields, render: Value -> string, e: Entry)
    ensures (exists k :: ReportedAt(from, upto, render, [], k, e))
            <==> IsChange(from, upto, render, e.change) && e.key == Label(e.change.path)
  {
    var p := e.change.path;
    assert p[0..] == p && p[..0] == [];
    assert e.change.(path := p[0..]) == e.change;
    if IsChange(from, upto, render, e.change) && e.key == Label(p) {
      assert ReportedAt(from, upto, render, [], p[0], e);
    }
  }

  lemma ChangesAreComplete(from: Fields, upto: Fields, render: Value -> string, diffs: seq<Entry>)
    requires NoDup(diffs)
    requires forall e :: e in diffs <==> IsChange(from, upto, render, e.change) && e.key == Label(e.change.path)
    ensures NoDup(ChangesOf(diffs)) && forall c :: c in ChangesOf(diffs) <==> IsChange(from, upto, render, c)
  {
    var cs := ChangesOf(diffs);
    forall i, j | 0 <= i < j < |cs| ensures cs[i] != cs[j] {
      assert diffs[i] in diffs && diffs[j] in diffs;
    }
    forall c ensures c in cs <==> IsChange(from, upto, render, c) {
      if c in cs {
        var i :| 0 <= i < |cs| && cs[i] == c;
        assert diffs[i] in diffs;
      }
      if IsChange(from, upto, render, c) {
        var e := Entry(Label(c.path), c);
        assert e in diffs;
        var i :| 0 <= i < |diffs| && diffs[i] == e;
        assert cs[i] == c;
      }
    }
  }

  /** The whole comparison of two trees. What it returns is empty exactly when they cannot be
      told apart, and applied to `from`, in the order returned, it gives a tree that cannot be
      told from `upto` - with an injective rendering, exactly `upto`. */
  method Diff(from: Fields, upto: Fields, render: Value -> string) returns (diffs: seq<Entry>)
    ensures NoDup(ChangesOf(diffs))
    ensures forall c :: c in ChangesOf(diffs) <==> IsChange(from, upto, render, c)
    ensures forall e :: e in diffs ==> e.key == Label(e.change.path)
    ensures diffs == [] <==> Indistinct(from, upto, render)
    ensures Indistinct(PatchAll(from, ChangesOf(diffs)), upto, render)
    ensures Injective(render) ==> (diffs == [] <==> from == upto) && PatchAll(from, ChangesOf(diffs)) == upto
  {
    diffs := DiffValues(from, upto, render, [], "");
    forall e ensures e in diffs <==> IsChange(from, upto, render, e.change) && e.key == Label(e.change.path) {
      ReportedAtRoot(from, upto, render, e);
    }
    hide ReportedAt, IsChange, Indistinct, PatchAll, Injective, Label;
    ChangesAreComplete(from, upto, render, diffs);
    ReportIsExact(from, upto, render, ChangesOf(diffs));
    assert diffs == [] <==> ChangesOf(diffs) == [];
  }

  /** The printed paths are less precise than the paths: anywhere in a tree, a key with a dot
      in it reads like two levels. */
  lemma DottedKeysCollide(at: seq<string>, a: string, b: string)
    requires a != "" || Label(at) != ""
    ensures Label(at + [a + "." + b]) == Label(at + [a, b])
  {
    assert (at + [a + "." + b])[..|at|] == at && (at + [a])[..|at|] == at;
    assert (at + [a, b])[..|at| + 1] == at + [a];
    assert Label(at) != "" ==> (Label(at) + "." + a) + "." + b == Label(at) + "." + (a + "." + b);
  }

  ghost predicate Plain(path: seq<string>) {
    forall i :: 0 <= i < |path| ==> path[i] != "" && '.' !in path[i]
  }

  /** With plain keys - not empty, no dots - the printed path determines the path. */
  lemma {:induction false} PlainLabelsAreUnique(p: seq<string>, q: seq<string>)
    requires Plain(p) && Plain(q) && Label(p) == Label(q)
    ensures p == q
    decreases |p|
  {
    hide Label;
    LabelShape(p);
    LabelShape(q);
    if p != [] && q != [] {
      SameLastKey(p, q);
      var x, y := p[..|p| - 1], q[..|q| - 1];
      PlainLabelsAreUnique(x, y);
      assert p == x + [p[|p| - 1]] && q == y + [q[|q| - 1]];
    }
  }

  lemma SameLastKey(p: seq<string>, q: seq<string>)
    requires Plain(p) && Plain(q) && Label(p) == Label(q) && p != [] && q != []
    ensures p[|p| - 1] == q[|q| - 1] && Label(p[..|p| - 1]) == Label(q[..|q| - 1])
  {
    hide Label;
    LabelShape(p);
    LabelShape(q);
    var a, b, l := p[|p| - 1], q[|q| - 1], Label(p);
    LongerTailHasDot(l, a, b);
    LongerTailHasDot(l, b, a);
    assert |a| == |b|;
    assert |p| == 1 ==> p[..|p| - 1] == q[..|q| - 1];
  }

  lemma LongerTailHasDot(l: string, a: string, b: string)
    requires |a| <= |l| && |b| <= |l| && l[|l| - |b|..] == b
    requires |a| == |l| || l[|l| - |a| - 1] == '.'
    ensures |a| < |b| ==> '.' in b
  {
    if |a| < |b| {
      assert b[|b| - |a| - 1] == l[|l| - |a| - 1];
    }
  }

  lemma LabelShape(p: seq<string>)
    requires Plain(p)
    ensures Label(p) == "" <==> p == []
    ensures p != [] ==> var a := p[|p| - 1];
                        |a| <= |Label(p)| && Label(p)[|Label(p)| - |a|..] == a
                        && (|p| == 1 <==> |a| == |Label(p)|)
                        && (|p| > 1 ==> |Label(p)| > |a| + 1 && Label(p)[|Label(p)| - |a| - 1] == '.'
                                        && Label(p)[..|Label(p)| - |a| - 1] == Label(p[..|p| - 1]))
  {
    if |p| > 1 {
      LabelShape(p[..|p| - 1]);
    }
  }
}
