/**
  Byte-level access to JSON without a parser (internal/eventstream/informer_impl.go):
  injectJSONField puts a string field right after the first '{', extractJSONString reads the
  string that follows the first `"key":`.
 */
module JsonBytes {
  import opened Common

  newtype byte = x: int | 0 <= x < 256

  type Bytes = seq<byte>

  const QUOTE: byte := 34
  const COLON: byte := 58
  const COMMA: byte := 44
  const BRACE: byte := 123
  const SPACE: byte := 32
  const TAB: byte := 9

  predicate OccursAt(s: Bytes, pat: Bytes, i: nat) {
    i + |pat| <= |s| && s[i..i + |pat|] == pat
  }

  /** bytes.Index */
  function Index(s: Bytes, pat: Bytes, start: nat := 0): (r: Option<nat>)
    requires start <= |s|
    ensures r.Some? ==> start <= r.value && r.value + |pat| <= |s| && OccursAt(s, pat, r.value)
    ensures r.Some? ==> forall j :: start <= j < r.value ==> !OccursAt(s, pat, j)
    ensures r.None? ==> forall j :: start <= j ==> !OccursAt(s, pat, j)
    decreases |s| - start
  {
    if OccursAt(s, pat, start) then Some(start)
    else if start == |s| then None
    else Index(s, pat, start + 1)
  }

  /** bytes.IndexByte */
  function IndexByte(s: Bytes, b: byte): (r: Option<nat>)
    ensures r.Some? ==> r.value < |s| && s[r.value] == b && b !in s[..r.value]
    ensures r.None? <==> b !in s
  {
    if s == [] then None
    else if s[0] == b then Some(0)
    else
      var r := IndexByte(s[1..], b);
      if r.None? then None
      else
        assert s[..r.value + 1] == [s[0]] + s[1..][..r.value];
        Some(r.value + 1)
  }

  function Quoted(t: Bytes): Bytes {
    [QUOTE] + t + [QUOTE]
  }

  function Snippet(key: Bytes, value: Bytes): Bytes {
    Quoted(key) + [COLON] + Quoted(value) + [COMMA]
  }

  function InjectField(raw: Bytes, key: Bytes, value: Bytes): Bytes {
    match IndexByte(raw, BRACE)
    case None => raw
    case Some(pos) => raw[..pos + 1] + Snippet(key, value) + raw[pos + 1..]
  }

  function Search(key: Bytes): (pat: Bytes)
    ensures |pat| == |key| + 3
  {
    Quoted(key) + [COLON]
  }

  predicate Blank(b: byte) {
    b == SPACE || b == TAB
  }

  /** The string value at the front of s: blanks, a quote, and all up to the next quote. */
  function ValueOf(s: Bytes): Bytes {
    if s == [] then []
    else if Blank(s[0]) then ValueOf(s[1..])
    else if s[0] != QUOTE then []
    else
      match IndexByte(s[1..], QUOTE)
      case None => []
      case Some(end) => s[1..][..end]
  }

  function Extract(raw: Bytes, key: Bytes): Bytes {
    match Index(raw, Search(key))
    case None => []
    case Some(p) => ValueOf(raw[p + |Search(key)|..])
  }

  method ExtractJsonString(raw: Bytes, key: Bytes) returns (value: Bytes)
    ensures value == Extract(raw, key)
  {
    var search := [QUOTE] + key + [QUOTE, COLON];
    assert search == Search(key);
    var pos := Index(raw, search);
    if pos.None? {
      return [];
    }
    value := ReadValue(raw, pos.value + |search|);
  }

  method ReadValue(raw: Bytes, from: nat) returns (value: Bytes)
    requires from <= |raw|
    ensures value == ValueOf(raw[from..])
  {
    hide ValueOf, Blank;
    var start := from;
    while start < |raw| && Blank(raw[start])
      invariant from <= start <= |raw|
      invariant ValueOf(raw[start..]) == ValueOf(raw[from..])
    {
      ValueAfterBlank(raw, start);
      start := start + 1;
    }
    if start >= |raw| || raw[start] != QUOTE {
      NoValue(raw, start);
      return [];
    }
    QuotedValue(raw, start);
    start := start + 1;
    var end := IndexByte(raw[start..], QUOTE);
    if end.None? {
      return [];
    }
    return raw[start..start + end.value];
  }

  lemma ValueAfterBlank(raw: Bytes, at: nat)
    requires at < |raw| && Blank(raw[at])
    ensures ValueOf(raw[at..]) == ValueOf(raw[at + 1..])
  {
    assert raw[at..][1..] == raw[at + 1..];
  }

  lemma NoValue(raw: Bytes, at: nat)
    requires at <= |raw| && (at < |raw| ==> !Blank(raw[at]) && raw[at] != QUOTE)
    ensures ValueOf(raw[at..]) == []
  {}

  lemma QuotedValue(raw: Bytes, at: nat)
    requires at < |raw| && raw[at] == QUOTE
    ensures var end := IndexByte(raw[at + 1..], QUOTE);
            ValueOf(raw[at..]) == if end.None? then [] else raw[at + 1..at + 1 + end.value]
  {
    var s, end := raw[at..], IndexByte(raw[at + 1..], QUOTE);
    assert s[0] == QUOTE && s[1..] == raw[at + 1..];
    if end.Some? {
      SliceOfSlice(raw, at + 1, 0, end.value);
    }
  }

  lemma {:induction false} SkipBlanks(blanks: Bytes, tail: Bytes)
    requires forall i :: 0 <= i < |blanks| ==> blanks[i] == 32 || blanks[i] == 9
    ensures ValueOf(blanks + tail) == ValueOf(tail)
  {
    if blanks == [] {
      assert blanks + tail == tail;
    } else {
      assert (blanks + tail)[1..] == blanks[1..] + tail;
      SkipBlanks(blanks[1..], tail);
    }
  }

  lemma ExtractAfterBlanks(raw: Bytes, front: Bytes, key: Bytes, blanks: Bytes, tail: Bytes)
    requires raw == front + [34] + key + [34, 58] + blanks + tail
    requires forall i :: 0 <= i < |blanks| ==> blanks[i] == 32 || blanks[i] == 9
    requires forall i :: 0 <= i < |front| ==> !OccursAt(raw, [34] + key + [34, 58], i)
    ensures Extract(raw, key) == ValueOf(tail)
  {
    assert [34] + key + [34, 58] == Search(key);
    assert raw[|front|..] == Search(key) + (blanks + tail);
    hide Search;
    FoundAt(raw, Search(key), |front|, blanks + tail);
    SkipBlanks(blanks, tail);
  }

  /** The scan, byte by byte: after the first `"key":` and any blanks and tabs, it reads what
      stands between two quotes ... */
  lemma ReadsTheQuotedValue(raw: Bytes, front: Bytes, key: Bytes, blanks: Bytes, value: Bytes, rest: Bytes)
    requires raw == front + [34] + key + [34, 58] + blanks + ([34] + value + [34] + rest) && 34 !in value
    requires forall i :: 0 <= i < |blanks| ==> blanks[i] == 32 || blanks[i] == 9
    requires forall i :: 0 <= i < |front| ==> !OccursAt(raw, [34] + key + [34, 58], i)
    ensures Extract(raw, key) == value
  {
    hide Extract;
    ExtractAfterBlanks(raw, front, key, blanks, [34] + value + [34] + rest);
    assert [34] + value + [34] + rest == Quoted(value) + rest;
    ValueOfQuoted(value, rest);
  }

  /** ... and nothing if something else follows, or no second quote. */
  lemma ReadsNothingElse(raw: Bytes, front: Bytes, key: Bytes, blanks: Bytes, tail: Bytes)
    requires raw == front + [34] + key + [34, 58] + blanks + tail
    requires forall i :: 0 <= i < |blanks| ==> blanks[i] == 32 || blanks[i] == 9
    requires forall i :: 0 <= i < |front| ==> !OccursAt(raw, [34] + key + [34, 58], i)
    requires tail == [] || (tail[0] != 32 && tail[0] != 9 && tail[0] != 34) || (tail[0] == 34 && 34 !in tail[1..])
    ensures Extract(raw, key) == []
  {
    hide Extract;
    ExtractAfterBlanks(raw, front, key, blanks, tail);
  }

  lemma NothingWithoutTheKey(raw: Bytes, key: Bytes)
    requires forall i: nat :: !OccursAt(raw, [34] + key + [34, 58], i)
    ensures Extract(raw, key) == []
  {
    assert [34] + key + [34, 58] == Search(key);
  }

  // ----- removing what was inserted

  /** The insertion is undone by cutting the inserted bytes out again. */
  lemma RemovingTheSnippetRestores(raw: Bytes, key: Bytes, value: Bytes)
    ensures BRACE !in raw ==> InjectField(raw, key, value) == raw
    ensures BRACE in raw ==>
              var pos, n, out := IndexByte(raw, BRACE).value, |Snippet(key, value)|, InjectField(raw, key, value);
              && pos < |raw| && |out| == |raw| + n
              && out[..pos + 1] == raw[..pos + 1] && out[pos + 1..] == Snippet(key, value) + raw[pos + 1..]
              && out[pos + 1 + n..] == raw[pos + 1..]
              && out[..pos + 1] + out[pos + 1 + n..] == raw
  {
    if BRACE in raw {
      var pos, s, out := IndexByte(raw, BRACE).value, Snippet(key, value), InjectField(raw, key, value);
      assert out == raw[..pos + 1] + s + raw[pos + 1..];
      hide InjectField, Snippet, IndexByte;
      Inserted(raw, s, pos + 1);
    }
  }

  lemma Inserted(raw: Bytes, s: Bytes, at: nat)
    requires at <= |raw|
    ensures var out := raw[..at] + s + raw[at..];
            && |out| == |raw| + |s|
            && out[..at] == raw[..at] && out[at..] == s + raw[at..] && out[at + |s|..] == raw[at..]
            && out[..at] + out[at + |s|..] == raw
  {}

  // ----- where a key can occur

  /** An occurrence that stretches over a '{' has one in the pattern. */
  lemma BraceInside(s: Bytes, pat: Bytes, i: nat, pos: nat)
    requires OccursAt(s, pat, i) && pos < |s| && s[pos] == BRACE
    ensures i <= pos < i + |pat| ==> BRACE in pat
  {
    if i <= pos < i + |pat| {
      assert pat[pos - i] == s[i..i + |pat|][pos - i];
    }
  }

  lemma SearchHasNoBrace(key: Bytes)
    requires BRACE !in key
    ensures BRACE !in Search(key)
  {}

  /** Occurrences before the insertion point are the same before and after. */
  lemma SameBefore(raw: Bytes, out: Bytes, pat: Bytes, pos: nat, i: nat)
    requires pos < |raw| && pos < |out| && raw[..pos + 1] == out[..pos + 1] && i + |pat| <= pos
    ensures OccursAt(raw, pat, i) <==> OccursAt(out, pat, i)
  {
    assert raw[i..i + |pat|] == raw[..pos + 1][i..i + |pat|];
    assert out[i..i + |pat|] == out[..pos + 1][i..i + |pat|];
  }

  lemma SameAfter(raw: Bytes, out: Bytes, pat: Bytes, pos: nat, n: nat, i: nat)
    requires pos < |raw| && |out| == |raw| + n && raw[pos + 1..] == out[pos + 1 + n..] && i > pos
    ensures OccursAt(raw, pat, i) <==> OccursAt(out, pat, i + n)
  {
    if i + |pat| <= |raw| {
      SliceOfSlice(raw, pos + 1, i - pos - 1, |pat|);
      SliceOfSlice(out, pos + 1 + n, i - pos - 1, |pat|);
    }
  }

  lemma SliceOfSlice(s: Bytes, k: nat, a: nat, n: nat)
    requires k + a + n <= |s|
    ensures s[k..][a..a + n] == s[k + a..k + a + n]
  {}

  lemma {:induction false} FirstByte(s: Bytes, b: byte, k: nat)
    requires k < |s| && s[k] == b && b !in s[..k]
    ensures IndexByte(s, b) == Some(k)
  {
    if k > 0 {
      assert s[..k][0] == s[0];
      assert s[1..][..k - 1] == s[..k][1..];
      FirstByte(s[1..], b, k - 1);
    }
  }

  lemma ValueOfQuoted(value: Bytes, rest: Bytes)
    requires QUOTE !in value
    ensures ValueOf(Quoted(value) + rest) == value
  {
    var s := Quoted(value) + rest;
    assert s[0] == QUOTE && s[1..] == value + [QUOTE] + rest;
    assert s[1..][..|value|] == value;
    FirstByte(s[1..], QUOTE, |value|);
  }

  /** An occurrence that begins at or before the first '{' ends before it. */
  lemma NoneAtTheFront(raw: Bytes, out: Bytes, pat: Bytes, pos: nat, i: nat)
    requires pos < |raw| && pos < |out| && raw[..pos + 1] == out[..pos + 1] && raw[pos] == BRACE
    requires BRACE !in pat && i <= pos
    ensures OccursAt(out, pat, i) <==> i + |pat| <= pos && OccursAt(raw, pat, i)
    ensures OccursAt(raw, pat, i) ==> i + |pat| <= pos
  {
    assert out[pos] == out[..pos + 1][pos];
    if OccursAt(out, pat, i) {
      BraceInside(out, pat, i, pos);
    }
    if OccursAt(raw, pat, i) {
      BraceInside(raw, pat, i, pos);
    }
    if i + |pat| <= pos {
      SameBefore(raw, out, pat, pos, i);
    }
  }

  /** A pattern found at `at`, and nowhere before, is what bytes.Index finds. */
  lemma FoundAt(s: Bytes, pat: Bytes, at: nat, tail: Bytes)
    requires at <= |s| && s[at..] == pat + tail
    requires forall i :: 0 <= i < at ==> !OccursAt(s, pat, i)
    ensures Index(s, pat) == Some(at) && s[at + |pat|..] == tail
  {
    SliceOfSlice(s, at, 0, |pat|);
    assert s[at..][0..|pat|] == pat;
    assert OccursAt(s, pat, at);
    assert s[at + |pat|..] == s[at..][|pat|..];
  }

  /** Round trip: the injected value is what extraction finds, provided the key does not
      already occur before the first '{'. */
  lemma InjectThenExtract(raw: Bytes, key: Bytes, value: Bytes)
    requires BRACE in raw && BRACE !in key && QUOTE !in value
    requires forall i :: 0 <= i && i + |Search(key)| <= IndexByte(raw, BRACE).value ==> !OccursAt(raw, Search(key), i)
    ensures Extract(InjectField(raw, key, value), key) == value
  {
    hide InjectField, ValueOf, Search, OccursAt, Index, IndexByte, Snippet, Quoted;
    var pos := IndexByte(raw, BRACE).value;
    var out := InjectField(raw, key, value);
    var pat := Search(key);
    var rest := [COMMA] + raw[pos + 1..];
    RemovingTheSnippetRestores(raw, key, value);
    SnippetFront(key, value, raw[pos + 1..]);
    SearchHasNoBrace(key);
    NoEarlierMatch(raw, out, pat, pos);
    FoundAt(out, pat, pos + 1, Quoted(value) + rest);
    ValueOfQuoted(value, rest);
  }

  lemma NoEarlierMatch(raw: Bytes, out: Bytes, pat: Bytes, pos: nat)
    requires pos < |raw| && pos < |out| && raw[..pos + 1] == out[..pos + 1] && raw[pos] == BRACE && BRACE !in pat
    requires forall i :: 0 <= i && i + |pat| <= pos ==> !OccursAt(raw, pat, i)
    ensures forall i :: 0 <= i < pos + 1 ==> !OccursAt(out, pat, i)
  {
    forall i | 0 <= i < pos + 1 ensures !OccursAt(out, pat, i) {
      NoneAtTheFront(raw, out, pat, pos, i);
    }
  }

  lemma SnippetFront(key: Bytes, value: Bytes, more: Bytes)
    ensures Snippet(key, value) + more == Search(key) + (Quoted(value) + ([COMMA] + more))
  {}

  // ----- the other keys

  /** A key that cannot be confused with punctuation; every alphanumeric key is one. */
  ghost predicate PlainKey(key: Bytes) {
    QUOTE !in key && BRACE !in key && COLON !in key && COMMA !in key
  }

  /** The layout of the inserted bytes: two quoted tokens, a colon and a comma. */
  ghost predicate IsSnippet(s: Bytes, key: Bytes, value: Bytes) {
    var k, v := |key|, |value|;
    && |s| >= k + v + 6
    && s[0] == QUOTE && s[1 + k] == QUOTE && s[2 + k] == COLON
    && s[3 + k] == QUOTE && s[4 + k + v] == QUOTE && s[5 + k + v] == COMMA
    && (forall j :: 1 <= j < 1 + k ==> s[j] == key[j - 1])
    && (forall j :: 4 + k <= j < 4 + k + v ==> s[j] == value[j - 4 - k])
  }

  /** The layout of a pattern found at i. */
  ghost predicate IsToken(s: Bytes, o: Bytes, i: nat) {
    && i + |o| + 3 <= |s| && s[i] == QUOTE && s[i + 1 + |o|] == QUOTE && s[i + 2 + |o|] == COLON
    && (forall j :: i + 1 <= j < i + 1 + |o| ==> s[j] == o[j - i - 1])
  }

  lemma SnippetLayout(key: Bytes, value: Bytes, more: Bytes)
    ensures |Snippet(key, value)| == |key| + |value| + 6
    ensures IsSnippet(Snippet(key, value) + more, key, value)
  {}

  lemma TokenLayout(s: Bytes, o: Bytes, i: nat)
    requires OccursAt(s, Search(o), i)
    ensures IsToken(s, o, i)
  {
    var t := s[i..i + |Search(o)|];
    assert forall j :: i <= j < i + |t| ==> s[j] == t[j - i];
    assert t[0] == QUOTE && t[1 + |o|] == QUOTE && t[2 + |o|] == COLON;
  }

  /** Two tokens that begin together and are both closed by a quote are equal, or one of
      them has a quote inside. */
  lemma SameToken(s: Bytes, at: nat, a: Bytes, b: Bytes)
    requires at + |a| < |s| && at + |b| < |s|
    requires forall j :: at <= j < at + |a| ==> s[j] == a[j - at]
    requires forall j :: at <= j < at + |b| ==> s[j] == b[j - at]
    requires s[at + |a|] == QUOTE && s[at + |b|] == QUOTE
    ensures a == b || QUOTE in a || QUOTE in b
  {
    if |a| < |b| {
      assert s[at + |a|] == b[|a|];
    } else if |b| < |a| {
      assert s[at + |b|] == a[|b|];
    } else {
      forall j | 0 <= j < |a| ensures a[j] == b[j] {
        assert s[at + j] == a[j] && s[at + j] == b[j];
      }
    }
  }

  lemma QuotePositions(s: Bytes, key: Bytes, value: Bytes, i: nat)
    requires IsSnippet(s, key, value) && i < |key| + |value| + 6 && s[i] == QUOTE
    ensures i == 0 || i == 1 + |key| || i == 3 + |key| || i == 4 + |key| + |value| || QUOTE in key || QUOTE in value
  {
    var k, v := |key|, |value|;
    if 0 < i <= k {
      assert s[i] == key[i - 1];
    } else if 3 + k < i < 4 + k + v {
      assert s[i] == value[i - 4 - k];
    }
  }

  /** A token that begins inside the snippet is the snippet's key, if no name has quotes or
      punctuation in it. */
  lemma TokenInSnippet(s: Bytes, key: Bytes, value: Bytes, o: Bytes, i: nat)
    requires IsSnippet(s, key, value) && i < |key| + |value| + 6 && IsToken(s, o, i)
    ensures o == key || QUOTE in key || QUOTE in value || QUOTE in o || COLON in o || COMMA in o
  {
    var k, v := |key|, |value|;
    QuotePositions(s, key, value, i);
    if i == 0 {
      SameToken(s, 1, key, o);
    } else if i == 3 + k {
      SameToken(s, 4 + k, value, o);
    } else if |o| > 0 {
      assert o[0] == s[i + 1];
    }
  }

  lemma NotInSnippet(key: Bytes, value: Bytes, more: Bytes, o: Bytes, i: nat)
    requires QUOTE !in key && QUOTE !in value && PlainKey(o) && o != key && i < |Snippet(key, value)|
    ensures !OccursAt(Snippet(key, value) + more, Search(o), i)
  {
    hide Snippet, Search, OccursAt, IsSnippet, IsToken;
    var s := Snippet(key, value) + more;
    SnippetLayout(key, value, more);
    if OccursAt(s, Search(o), i) {
      TokenLayout(s, o, i);
      TokenInSnippet(s, key, value, o, i);
    }
  }

  /** The same pattern at the same place of a suffix. */
  lemma InSuffix(s: Bytes, pat: Bytes, at: nat, i: nat)
    requires at <= |s|
    ensures OccursAt(s[at..], pat, i) <==> OccursAt(s, pat, at + i)
  {
    if at + i + |pat| <= |s| {
      SliceOfSlice(s, at, i, |pat|);
    }
  }

  lemma NoneInside(out: Bytes, raw: Bytes, key: Bytes, value: Bytes, o: Bytes, pos: nat, i: nat)
    requires QUOTE !in key && QUOTE !in value && PlainKey(o) && o != key && pos < i <= pos + |Snippet(key, value)|
    requires pos + 1 <= |out| && pos + 1 <= |raw| && out[pos + 1..] == Snippet(key, value) + raw[pos + 1..]
    ensures !OccursAt(out, Search(o), i)
  {
    hide Snippet, Search, OccursAt, PlainKey;
    NotInSnippet(key, value, raw[pos + 1..], o, i - pos - 1);
    InSuffix(out, Search(o), pos + 1, i - pos - 1);
  }

  lemma AroundTheSnippet(raw: Bytes, key: Bytes, value: Bytes, pos: nat)
    requires IndexByte(raw, BRACE) == Some(pos)
    ensures var out, n := InjectField(raw, key, value), |Snippet(key, value)|;
            && pos < |raw| && |out| == |raw| + n && raw[pos] == BRACE
            && out[..pos + 1] == raw[..pos + 1] && out[pos + 1..] == Snippet(key, value) + raw[pos + 1..]
            && out[pos + 1 + n..] == raw[pos + 1..]
  {
    hide InjectField, Snippet;
    RemovingTheSnippetRestores(raw, key, value);
  }

  lemma NoneAcross(raw: Bytes, key: Bytes, value: Bytes, o: Bytes, pos: nat, i: nat)
    requires IndexByte(raw, BRACE) == Some(pos) && QUOTE !in key && QUOTE !in value && PlainKey(o) && o != key
    ensures var out, n := InjectField(raw, key, value), |Snippet(key, value)|;
            && (i <= pos ==> (OccursAt(out, Search(o), i) <==> OccursAt(raw, Search(o), i)))
            && (pos < i <= pos + n ==> !OccursAt(out, Search(o), i))
            && (i > pos + n ==> (OccursAt(out, Search(o), i) <==> OccursAt(raw, Search(o), i - n)))
            && (i <= pos && OccursAt(raw, Search(o), i) ==> i + |Search(o)| <= pos)
  {
    hide InjectField, Snippet, Search, OccursAt, IndexByte;
    var out, n := InjectField(raw, key, value), |Snippet(key, value)|;
    AroundTheSnippet(raw, key, value, pos);
    SearchHasNoBrace(o);
    hide PlainKey;
    if i <= pos {
      NoneAtTheFront(raw, out, Search(o), pos, i);
    } else if i <= pos + n {
      NoneInside(out, raw, key, value, o, pos, i);
    } else {
      SameAfter(raw, out, Search(o), pos, n, i - n);
    }
  }

  /** Injection moves the first occurrence of another key exactly as it moves the bytes. */
  lemma OtherKeyMoves(raw: Bytes, key: Bytes, value: Bytes, o: Bytes, pos: nat)
    requires IndexByte(raw, BRACE) == Some(pos) && QUOTE !in key && QUOTE !in value && PlainKey(o) && o != key
    ensures var out, n := InjectField(raw, key, value), |Snippet(key, value)|;
            match Index(raw, Search(o))
            case None => Index(out, Search(o)) == None
            case Some(p) => (p < pos ==> Index(out, Search(o)) == Some(p) && p + |Search(o)| <= pos)
                            && (p >= pos ==> p > pos && Index(out, Search(o)) == Some(p + n))
  {
    hide InjectField, Snippet, Search, OccursAt;
    var out, n := InjectField(raw, key, value), |Snippet(key, value)|;
    var before, after := Index(raw, Search(o)), Index(out, Search(o));
    if after.Some? {
      NoneAcross(raw, key, value, o, pos, after.value);
    }
    if before.Some? {
      NoneAcross(raw, key, value, o, pos, before.value);
      NoneAcross(raw, key, value, o, pos, before.value + n);
    }
  }

  /** The text between a key and the first '{' opens a string that it does not close. */
  predicate OpenString(a: Bytes) {
    if a == [] then false
    else if Blank(a[0]) then OpenString(a[1..])
    else a[0] == QUOTE && QUOTE !in a[1..]
  }

  lemma {:induction false} ValueAcrossBrace(a: Bytes, snippet: Bytes, b: Bytes)
    requires |snippet| > 0 && snippet[0] == QUOTE
    ensures ValueOf(a + [BRACE] + snippet + b) == ValueOf(a + [BRACE] + b)
            <==> !OpenString(a) || (b != [] && b[0] == QUOTE)
  {
    var x, y := a + [BRACE] + snippet + b, a + [BRACE] + b;
    if a == [] {
      assert x[0] == BRACE && y[0] == BRACE;
    } else {
      assert x[0] == a[0] && y[0] == a[0];
      assert x[1..] == a[1..] + [BRACE] + snippet + b && y[1..] == a[1..] + [BRACE] + b;
      if Blank(a[0]) {
        ValueAcrossBrace(a[1..], snippet, b);
      } else if a[0] == QUOTE {
        ClosingQuote(a[1..], snippet, b);
      }
    }
  }

  lemma QuotedUpTo(s: Bytes, e: nat)
    requires e < |s| && s[e] == QUOTE && QUOTE !in s[..e]
    ensures ValueOf([QUOTE] + s) == s[..e]
  {
    assert ([QUOTE] + s)[1..] == s;
    FirstByte(s, QUOTE, e);
  }

  lemma NeverClosed(s: Bytes)
    requires QUOTE !in s
    ensures ValueOf([QUOTE] + s) == []
  {
    assert ([QUOTE] + s)[1..] == s;
  }

  lemma ClosingQuote(a: Bytes, snippet: Bytes, b: Bytes)
    requires |snippet| > 0 && snippet[0] == QUOTE
    ensures ValueOf([QUOTE] + (a + [BRACE] + snippet + b)) == ValueOf([QUOTE] + (a + [BRACE] + b))
            <==> QUOTE in a || (b != [] && b[0] == QUOTE)
  {
    hide ValueOf;
    var x, y := a + [BRACE] + snippet + b, a + [BRACE] + b;
    if QUOTE in a {
      var e := IndexByte(a, QUOTE).value;
      assert x[..e] == a[..e] == y[..e];
      QuotedUpTo(x, e);
      QuotedUpTo(y, e);
    } else {
      assert x[..|a| + 1] == a + [BRACE];
      QuotedUpTo(x, |a| + 1);
      if QUOTE in b {
        var e := IndexByte(b, QUOTE).value;
        assert y[..|a| + 1 + e] == a + [BRACE] + b[..e];
        QuotedUpTo(y, |a| + 1 + e);
        assert e == 0 ==> y[..|a| + 1 + e] == a + [BRACE];
        assert |y[..|a| + 1 + e]| == |a| + 1 + e;
      } else {
        NeverClosed(y);
      }
    }
  }

  lemma SuffixAfterInsertion(raw: Bytes, out: Bytes, snippet: Bytes, pos: nat, q: nat)
    requires q <= pos < |raw| && raw[pos] == BRACE && pos < |out|
    requires out[..pos + 1] == raw[..pos + 1] && out[pos + 1..] == snippet + raw[pos + 1..]
    ensures out[q..] == raw[q..pos] + [BRACE] + snippet + raw[pos + 1..]
  {
    assert out == raw[..pos + 1] + (snippet + raw[pos + 1..]);
    assert raw[..pos + 1] == raw[..q] + raw[q..pos] + [BRACE];
  }

  lemma SplitAt(raw: Bytes, pos: nat, q: nat)
    requires q <= pos < |raw|
    ensures raw[q..] == raw[q..pos] + [raw[pos]] + raw[pos + 1..]
  {}

  lemma SnippetOpens(key: Bytes, value: Bytes)
    ensures |Snippet(key, value)| > 0 && Snippet(key, value)[0] == QUOTE
  {}

  lemma ValueBeforeBrace(raw: Bytes, key: Bytes, value: Bytes, pos: nat, q: nat)
    requires IndexByte(raw, BRACE) == Some(pos) && q <= pos
    ensures ValueOf(InjectField(raw, key, value)[q..]) == ValueOf(raw[q..])
            <==> !OpenString(raw[q..pos]) || (pos + 1 < |raw| && raw[pos + 1] == QUOTE)
  {
    hide ValueOf, OpenString, InjectField, Snippet, IndexByte;
    var out, snippet := InjectField(raw, key, value), Snippet(key, value);
    SnippetOpens(key, value);
    RemovingTheSnippetRestores(raw, key, value);
    assert raw[pos] == BRACE;
    var a, b := raw[q..pos], raw[pos + 1..];
    SplitAt(raw, pos, q);
    SuffixAfterInsertion(raw, out, snippet, pos, q);
    ValueAcrossBrace(a, snippet, b);
  }

  lemma ValueAfterBrace(raw: Bytes, key: Bytes, value: Bytes, pos: nat, q: nat)
    requires IndexByte(raw, BRACE) == Some(pos) && pos < q <= |raw|
    ensures q + |Snippet(key, value)| <= |InjectField(raw, key, value)|
    ensures InjectField(raw, key, value)[q + |Snippet(key, value)|..] == raw[q..]
  {
    hide InjectField, Snippet;
    var out, n := InjectField(raw, key, value), |Snippet(key, value)|;
    RemovingTheSnippetRestores(raw, key, value);
    assert out[pos + 1 + n..][q - pos - 1..] == out[q + n..];
    assert raw[pos + 1..][q - pos - 1..] == raw[q..];
  }

  /** The key stands before the first '{', its string value runs over that brace, and the
      byte after the brace is not the closing quote. */
  predicate RunsOverBrace(raw: Bytes, o: Bytes)
    requires BRACE in raw
  {
    var pos := IndexByte(raw, BRACE).value;
    match Index(raw, Search(o))
    case None => false
    case Some(p) =>
      && p + |Search(o)| <= pos
      && OpenString(raw[p + |Search(o)|..pos])
      && !(pos + 1 < |raw| && raw[pos + 1] == QUOTE)
  }

  lemma ExtractFrom(raw: Bytes, o: Bytes, p: nat)
    requires Index(raw, Search(o)) == Some(p)
    ensures p + |Search(o)| <= |raw| && Extract(raw, o) == ValueOf(raw[p + |Search(o)|..])
  {
    hide ValueOf, IndexByte, Quoted, Search, Index, OccursAt;
  }

  /** Extraction of any other key is unchanged by the injection, except exactly then. */
  lemma OtherKeysUnchanged(raw: Bytes, key: Bytes, value: Bytes, o: Bytes)
    requires BRACE in raw && QUOTE !in key && QUOTE !in value && PlainKey(o) && o != key
    ensures Extract(InjectField(raw, key, value), o) == Extract(raw, o) <==> !RunsOverBrace(raw, o)
  {
    hide InjectField, ValueOf, Search, OccursAt, Index, IndexByte, OpenString, Snippet, Quoted;
    var pos, m := IndexByte(raw, BRACE).value, |Search(o)|;
    OtherKeyMoves(raw, key, value, o, pos);
    var found := Index(raw, Search(o));
    if found.Some? {
      hide Extract;
      var p := found.value;
      ExtractFrom(raw, o, p);
      if p < pos {
        ExtractFrom(InjectField(raw, key, value), o, p);
        ValueBeforeBrace(raw, key, value, pos, p + m);
      } else {
        ExtractFrom(InjectField(raw, key, value), o, p + |Snippet(key, value)|);
        ValueAfterBrace(raw, key, value, pos, p + m);
        assert p + m + |Snippet(key, value)| == p + |Snippet(key, value)| + m;
      }
    }
  }

  // ----- kinds

  const LIST: Bytes := [76, 105, 115, 116]     // "List"
  const KIND: Bytes := [107, 105, 110, 100]    // "kind"

  function TrimList(kind: Bytes): Bytes {
    if |kind| >= 4 && kind[|kind| - 4..] == LIST then kind[..|kind| - 4] else kind
  }

  function InjectKind(raw: Bytes, listKind: Bytes): Bytes {
    var kind := TrimList(listKind);
    if kind == listKind || kind == [] then raw else InjectField(raw, KIND, kind)
  }

  /** A list item gets the kind that the list names, as extraction reads it back. */
  lemma ItemsGetTheirKind(raw: Bytes, kind: Bytes)
    requires kind != [] && QUOTE !in kind && BRACE in raw
    requires forall i :: 0 <= i && i + |Search(KIND)| <= IndexByte(raw, BRACE).value ==> !OccursAt(raw, Search(KIND), i)
    ensures Extract(InjectKind(raw, kind + LIST), KIND) == kind
  {
    assert (kind + LIST)[|kind + LIST| - 4..] == LIST;
    assert TrimList(kind + LIST) == kind;
    InjectThenExtract(raw, KIND, kind);
  }

  /** An object is left alone exactly if it has no brace or the list kind is not a word
      followed by "List". */
  lemma InjectsExactlyForLists(raw: Bytes, listKind: Bytes)
    ensures InjectKind(raw, listKind) == raw
            <==> BRACE !in raw || |listKind| <= 4 || listKind[|listKind| - 4..] != LIST
  {
    if BRACE in raw && |listKind| > 4 && listKind[|listKind| - 4..] == LIST {
      RemovingTheSnippetRestores(raw, KIND, TrimList(listKind));
      assert |Snippet(KIND, TrimList(listKind))| > 0;
    } else if BRACE !in raw {
      RemovingTheSnippetRestores(raw, KIND, TrimList(listKind));
    }
  }
}
