/**
  The ordered migration runner (cmd/kp/migrate_plan.go, cmd/kp/migrate_run.go): scan the
  directory for files above the recorded version, sort them, and apply each in a
  transaction that also records its version; stop at the first failure.

  The database is the sequence of files whose SQL committed - what the SQL does to the data
  is a function of that - together with the rows of the version table.
 */
module Migration {
  import opened Common

  const MAX_INT64: int := 0x7fff_ffff_ffff_ffff

  datatype DirEntry = DirEntry(name: string, isDir: bool)

  datatype File = File(version: int, name: string)

  predicate IsDigit(c: char) {
    '0' <= c <= '9'
  }

  function Digits(s: string): (n: nat)
    ensures n <= |s|
    ensures forall i :: 0 <= i < n ==> IsDigit(s[i])
    ensures n < |s| ==> !IsDigit(s[n])
  {
    if s == "" || !IsDigit(s[0]) then 0 else 1 + Digits(s[1..])
  }

  function Number(s: string): nat
    requires forall i :: 0 <= i < |s| ==> IsDigit(s[i])
  {
    if s == "" then 0
    else
      assert IsDigit(s[|s| - 1]);
      Number(s[..|s| - 1]) * 10 + (s[|s| - 1] as int - '0' as int)
  }

  /** The number before the first '_', 0 if the name does not start with one, and the largest
      int64 if it does not fit: ParseInt's error is ignored. */
  function ExtractVersion(name: string): (v: int)
    ensures 0 <= v <= MAX_INT64
  {
    var n := Digits(name);
    if n == 0 || n == |name| || name[n] != '_' then 0
    else if Number(name[..n]) > MAX_INT64 then MAX_INT64
    else Number(name[..n])
  }

  lemma {:induction false} DigitsThenMore(digits: string, rest: string)
    requires forall i :: 0 <= i < |digits| ==> IsDigit(digits[i])
    requires rest == "" || !IsDigit(rest[0])
    ensures Digits(digits + rest) == |digits|
  {
    if digits == "" {
      assert digits + rest == rest;
    } else {
      DigitsThenMore(digits[1..], rest);
      assert (digits + rest)[1..] == digits[1..] + rest;
    }
  }

  /** A name has the version n > 0 exactly if it is a number, '_' and a rest, and the number is n -
      or is too large, and n the largest there is. */
  lemma VersionIsTheLeadingNumber(name: string, n: int)
    requires n > 0
    ensures ExtractVersion(name) == n
            <==> exists k :: 0 < k < |name| && NumberUpTo(name, k) && name[k] == '_'
                             && n == Saturated(Number(name[..k]))
  {
    if k :| 0 < k < |name| && NumberUpTo(name, k) && name[k] == '_' && n == Saturated(Number(name[..k])) {
      DigitsThenMore(name[..k], name[k..]);
      assert name == name[..k] + name[k..];
    }
    if ExtractVersion(name) == n {
      assert NumberUpTo(name, Digits(name));
    }
  }

  predicate NumberUpTo(name: string, k: nat)
    requires k <= |name|
  {
    forall i :: 0 <= i < k ==> IsDigit(name[i])
  }

  function Saturated(n: int): int {
    if n > MAX_INT64 then MAX_INT64 else n
  }

  const SUFFIX := ".up.sql"

  predicate HasSuffix(name: string) {
    |name| >= |SUFFIX| && name[|name| - |SUFFIX|..] == SUFFIX
  }

  /** A target that is not positive is no limit: -1 means latest, and 0 means the same. */
  predicate Eligible(e: DirEntry, current: int, target: int) {
    && !e.isDir && HasSuffix(e.name)
    && ExtractVersion(e.name) > current
    && (target > 0 ==> ExtractVersion(e.name) <= target)
  }

  function FileOf(e: DirEntry): File {
    File(ExtractVersion(e.name), e.name)
  }

  function Listed(entries: seq<DirEntry>, current: int, target: int): seq<File> {
    if entries == [] then []
    else
      var n := |entries| - 1;
      Listed(entries[..n], current, target)
        + (if Eligible(entries[n], current, target) then [FileOf(entries[n])] else [])
  }

  ghost predicate Ascending(files: seq<File>) {
    forall i, j :: 0 <= i < j < |files| ==> files[i].version <= files[j].version
  }

  /** The sort is not stable: any ascending arrangement may come out. */
  ghost predicate IsScan(entries: seq<DirEntry>, current: int, target: int, files: seq<File>) {
    Ascending(files) && multiset(files) == multiset(Listed(entries, current, target))
  }

  method InsertByVersion(sorted: seq<File>, f: File) returns (longer: seq<File>)
    requires Ascending(sorted)
    ensures Ascending(longer) && multiset(longer) == multiset(sorted) + multiset{f}
  {
    var k := |sorted|;
    while k > 0 && sorted[k - 1].version > f.version
      invariant 0 <= k <= |sorted|
      invariant forall j :: k <= j < |sorted| ==> sorted[j].version > f.version
    {
      k := k - 1;
    }
    longer := sorted[..k] + [f] + sorted[k..];
    InsertedContents(sorted, k, f);
    InsertedInOrder(sorted, k, f);
  }

  lemma InsertedContents(sorted: seq<File>, k: nat, f: File)
    requires k <= |sorted|
    ensures multiset(sorted[..k] + [f] + sorted[k..]) == multiset(sorted) + multiset{f}
  {
    assert sorted == sorted[..k] + sorted[k..];
  }

  lemma InsertedInOrder(sorted: seq<File>, k: nat, f: File)
    requires Ascending(sorted) && k <= |sorted|
    requires forall j :: k <= j < |sorted| ==> sorted[j].version > f.version
    requires k > 0 ==> sorted[k - 1].version <= f.version
    ensures Ascending(sorted[..k] + [f] + sorted[k..])
  {
  }

  method SortByVersion(files: seq<File>) returns (sorted: seq<File>)
    ensures Ascending(sorted) && multiset(sorted) == multiset(files)
  {
    sorted := [];
    for i := 0 to |files|
      invariant Ascending(sorted) && multiset(sorted) == multiset(files[..i])
    {
      assert files[..i + 1] == files[..i] + [files[i]];
      sorted := InsertByVersion(sorted, files[i]);
    }
    assert files[..|files|] == files;
  }

  lemma {:induction false} ListedMembers(entries: seq<DirEntry>, current: int, target: int, f: File)
    ensures f in Listed(entries, current, target)
            <==> exists i :: 0 <= i < |entries| && Eligible(entries[i], current, target) && FileOf(entries[i]) == f
  {
    hide Eligible, FileOf;
    if entries != [] {
      var n := |entries| - 1;
      ListedMembers(entries[..n], current, target, f);
      if f in Listed(entries, current, target) {
        if f in Listed(entries[..n], current, target) {
          var i :| 0 <= i < n && Eligible(entries[..n][i], current, target) && FileOf(entries[..n][i]) == f;
          assert Eligible(entries[i], current, target) && FileOf(entries[i]) == f;
        } else {
          assert Eligible(entries[n], current, target) && FileOf(entries[n]) == f;
        }
      }
      if i :| 0 <= i < |entries| && Eligible(entries[i], current, target) && FileOf(entries[i]) == f {
        assert i < n ==> entries[..n][i] == entries[i];
      }
    }
  }

  lemma ScanMembers(entries: seq<DirEntry>, current: int, target: int, files: seq<File>, f: File)
    requires IsScan(entries, current, target, files)
    ensures f in files
            <==> exists i :: 0 <= i < |entries| && Eligible(entries[i], current, target) && FileOf(entries[i]) == f
  {
    ListedMembers(entries, current, target, f);
    assert f in files <==> f in multiset(files);
    assert f in Listed(entries, current, target) <==> f in multiset(Listed(entries, current, target));
  }

  lemma TwoOfAKind(s: seq<File>, f: File)
    requires multiset(s)[f] >= 2
    ensures exists i, j :: 0 <= i < j < |s| && s[i] == f && s[j] == f
  {
    assert f in s;
    var i :| 0 <= i < |s| && s[i] == f;
    assert s == s[..i] + [s[i]] + s[i + 1..];
    assert f in multiset(s[..i] + s[i + 1..]);
    if f in s[..i] {
      var j :| 0 <= j < i && s[..i][j] == f;
      assert s[j] == f && s[i] == f;
    } else {
      assert f in s[i + 1..];
      var j :| 0 <= j < |s[i + 1..]| && s[i + 1..][j] == f;
      assert s[i] == f && s[i + 1 + j] == f;
    }
  }

  /** A file is pending exactly if an entry of that name is no directory, ends in `.up.sql`, and
      has a version above the recorded one and - if a target is given - not above the target. */
  lemma ScanIsWhatIsPending(entries: seq<DirEntry>, current: int, target: int, files: seq<File>)
    requires IsScan(entries, current, target, files)
    ensures forall f :: f in files <==>
              && DirEntry(f.name, false) in entries
              && |f.name| >= 7 && f.name[|f.name| - 7..] == ".up.sql"
              && f.version == ExtractVersion(f.name) && f.version > current
              && (target > 0 ==> f.version <= target)
  {
    forall f: File
      ensures var e := DirEntry(f.name, false);
              f in files <==> e in entries && Eligible(e, current, target) && FileOf(e) == f
    {
      ScanMembers(entries, current, target, files, f);
    }
  }

  ghost predicate NoNameTwice(entries: seq<DirEntry>) {
    forall i, j :: 0 <= i < j < |entries| ==> entries[i].name != entries[j].name
  }

  lemma {:induction false} ListedOnce(entries: seq<DirEntry>, current: int, target: int, f: File)
    requires NoNameTwice(entries)
    ensures multiset(Listed(entries, current, target))[f] <= 1
  {
    if entries != [] {
      var n := |entries| - 1;
      ListedOnce(entries[..n], current, target, f);
      ListedMembers(entries[..n], current, target, f);
      hide Eligible;
      if f in Listed(entries[..n], current, target) {
        var i :| 0 <= i < n && Eligible(entries[..n][i], current, target) && FileOf(entries[..n][i]) == f;
        assert entries[i].name != entries[n].name;
      }
    }
  }

  lemma ScannedOnce(entries: seq<DirEntry>, current: int, target: int, files: seq<File>)
    requires NoNameTwice(entries) && IsScan(entries, current, target, files)
    ensures forall i, j :: 0 <= i < j < |files| ==> files[i] != files[j]
  {
    forall i, j | 0 <= i < j < |files| ensures files[i] != files[j] {
      ListedOnce(entries, current, target, files[j]);
      assert files == files[..j] + [files[j]] + files[j + 1..];
      assert files[i] in files[..j];
    }
  }

  method ScanMigrationFiles(entries: seq<DirEntry>, current: int, target: int) returns (files: seq<File>)
    ensures IsScan(entries, current, target, files)
    ensures forall f :: f in files <==>
              && DirEntry(f.name, false) in entries
              && |f.name| >= 7 && f.name[|f.name| - 7..] == ".up.sql"
              && f.version == ExtractVersion(f.name) && f.version > current
              && (target > 0 ==> f.version <= target)
    ensures forall i, j :: 0 <= i < j < |files| ==> files[i].version <= files[j].version
    ensures NoNameTwice(entries) ==> forall i, j :: 0 <= i < j < |files| ==> files[i] != files[j]
  {
    files := [];
    for i := 0 to |entries|
      invariant files == Listed(entries[..i], current, target)
    {
      assert entries[..i + 1][..i] == entries[..i];
      if entries[i].isDir || !HasSuffix(entries[i].name) {
        continue;
      }
      var version := ExtractVersion(entries[i].name);
      if version <= current {
        continue;
      }
      if target > 0 && version > target {
        continue;
      }
      files := files + [File(version, entries[i].name)];
    }
    assert entries[..|entries|] == entries;
    files := SortByVersion(files);
    ScanIsWhatIsPending(entries, current, target, files);
    if NoNameTwice(entries) {
      ScannedOnce(entries, current, target, files);
    }
  }

  // ----- applying

  datatype Db = Db(log: seq<File>, rows: set<int>)

  /** How the transaction of one file ends. `CommitLost`: it committed, but Commit returns an
      error. */
  datatype Attempt = Commits | FailsCleanly | CommitLost

  /** The recorded version is the largest in the table, 0 if there is none. */
  ghost predicate IsCurrent(db: Db, version: int) {
    if db.rows == {} then version == 0
    else version in db.rows && forall r :: r in db.rows ==> r <= version
  }

  function Committed(db: Db, f: File): Db {
    Db(db.log + [f], db.rows + {f.version})
  }

  datatype RunResult = RunResult(db: Db, finished: bool)

  function RunFiles(db: Db, files: seq<File>, attempts: seq<Attempt>): RunResult
    requires |attempts| == |files|
    decreases |files|
  {
    if files == [] then RunResult(db, true)
    else match attempts[0]
      case Commits => RunFiles(Committed(db, files[0]), files[1..], attempts[1..])
      case FailsCleanly => RunResult(db, false)
      case CommitLost => RunResult(Committed(db, files[0]), false)
  }

  class Database {
    var state: Db

    constructor (db: Db)
      ensures state == db
    {
      state := db;
    }

    method ExecuteFile(f: File, attempt: Attempt) returns (ok: bool)
      modifies this
      ensures ok <==> attempt.Commits?
      ensures state == if attempt.FailsCleanly? then old(state) else Committed(old(state), f)
    {
      var tx := Db(state.log + [f], state.rows);
      tx := tx.(rows := tx.rows + {f.version});
      if attempt.FailsCleanly? {
        return false;
      }
      state := tx;
      return attempt.Commits?;
    }

    /** The apply loop of one `kp migrate run`. */
    method ApplyAll(files: seq<File>, attempts: seq<Attempt>) returns (finished: bool)
      requires |attempts| == |files|
      modifies this
      ensures RunResult(state, finished) == RunFiles(old(state), files, attempts)
    {
      for i := 0 to |files|
        invariant RunFiles(state, files[i..], attempts[i..]) == RunFiles(old(state), files, attempts)
      {
        var ok := ExecuteFile(files[i], attempts[i]);
        if !ok {
          return false;
        }
      }
      return true;
    }
  }

  // ----- from which version a run starts

  /** `--migration-tool`; the default is Auto. */
  datatype Tool = GolangMigrate | Auto

  /** `answer` is what the query for the largest row gives: nothing if it fails, and an empty
      table counts as failing. With Auto a run then takes 0, otherwise it stops. */
  method DetectVersion(tool: Tool, answer: Option<int>) returns (current: Option<int>)
    ensures current == StartVersion(tool, answer)
  {
    if answer.Some? {
      return answer;
    }
    if tool.GolangMigrate? {
      return None;
    }
    return Some(0);
  }

  function StartVersion(tool: Tool, answer: Option<int>): Option<int> {
    if answer.None? && tool.Auto? then Some(0) else answer
  }

  // ----- a series of runs over the same directory

  /** `queried`: the database answered the query for the version. */
  datatype Run = Run(tool: Tool, queried: bool, current: Option<int>, files: seq<File>, attempts: seq<Attempt>)

  /** The run starts from what the query and the tool make of the table. */
  ghost predicate Starts(db: Db, r: Run) {
    exists answer: Option<int> ::
      && (answer.Some? <==> r.queried && db.rows != {})
      && (answer.Some? ==> IsCurrent(db, answer.value))
      && r.current == StartVersion(r.tool, answer)
  }

  /** The whole run: what it starts from, scans and applies. */
  function AfterRun(db: Db, r: Run): RunResult
    requires |r.attempts| == |r.files|
  {
    if r.current.None? then RunResult(db, false) else RunFiles(db, r.files, r.attempts)
  }

  ghost predicate IsSeries(entries: seq<DirEntry>, target: int, dbs: seq<Db>, runs: seq<Run>) {
    && |dbs| == |runs| + 1
    && forall i :: 0 <= i < |runs| ==>
                     && Starts(dbs[i], runs[i])
                     && (runs[i].current.Some? ==> IsScan(entries, runs[i].current.value, target, runs[i].files))
                     && |runs[i].attempts| == |runs[i].files|
                     && dbs[i + 1] == AfterRun(dbs[i], runs[i]).db
  }

  /** A run that does not know the version, and goes on nevertheless. */
  predicate Blind(r: Run) {
    r.tool.Auto? && !r.queried
  }

  ghost predicate NoneBlind(runs: seq<Run>, n: nat) {
    forall i :: 0 <= i < n && i < |runs| ==> !Blind(runs[i])
  }

  lemma StartsAtCurrent(db: Db, r: Run)
    requires Starts(db, r) && !Blind(r) && r.current.Some?
    ensures IsCurrent(db, r.current.value)
  {}

  /** Exactly a blind run on a table whose version is not 0 starts from a wrong version. */
  lemma StartsWrongExactlyIfBlind(db: Db, r: Run)
    requires Starts(db, r) && r.current.Some?
    ensures IsCurrent(db, r.current.value) <==> !Blind(r) || IsCurrent(db, 0)
  {}

  ghost predicate StrictlyAscending(files: seq<File>) {
    forall i, j :: 0 <= i < j < |files| ==> files[i].version < files[j].version
  }

  ghost predicate DistinctVersions(files: seq<File>) {
    forall i, j :: 0 <= i < j < |files| ==> files[i].version != files[j].version
  }

  /** What a caller can check in the directory: no two pending files carry one version. */
  ghost predicate NoVersionTwice(entries: seq<DirEntry>, current: int, target: int) {
    forall i, j :: 0 <= i < j < |entries| ==>
      (Eligible(entries[i], current, target) && Eligible(entries[j], current, target)
       ==> FileOf(entries[i]).version != FileOf(entries[j]).version)
  }

  lemma {:induction false} ListedDistinct(entries: seq<DirEntry>, current: int, target: int)
    requires NoVersionTwice(entries, current, target)
    ensures DistinctVersions(Listed(entries, current, target))
  {
    if entries != [] {
      var n := |entries| - 1;
      ListedDistinct(entries[..n], current, target);
      var front := Listed(entries[..n], current, target);
      forall k | 0 <= k < |front| && Eligible(entries[n], current, target)
        ensures front[k].version != FileOf(entries[n]).version
      {
        ListedMembers(entries[..n], current, target, front[k]);
        var i :| 0 <= i < n && Eligible(entries[..n][i], current, target) && FileOf(entries[..n][i]) == front[k];
        assert entries[..n][i] == entries[i];
      }
    }
  }

  lemma RearrangedDistinct(a: seq<File>, b: seq<File>)
    requires DistinctVersions(a) && multiset(a) == multiset(b)
    ensures DistinctVersions(b)
  {
    forall i, j | 0 <= i < j < |b| ensures b[i].version != b[j].version {
      if b[i].version == b[j].version {
        assert b[i] in multiset(a) && b[j] in multiset(a);
        assert b[i] == b[j];
        assert b == b[..j] + [b[j]] + b[j + 1..];
        assert b[i] in b[..j];
        assert multiset(b)[b[i]] >= 2;
        TwoOfAKind(a, b[i]);
      }
    }
  }

  /** Then every later scan is strictly ascending. */
  lemma ScanIsStrict(entries: seq<DirEntry>, current: int, target: int, later: int, files: seq<File>)
    requires NoVersionTwice(entries, current, target) && later >= current
    requires IsScan(entries, later, target, files)
    ensures StrictlyAscending(files)
  {
    ListedDistinct(entries, later, target);
    RearrangedDistinct(Listed(entries, later, target), files);
  }

  /** A strictly ascending sequence is determined by its elements. */
  lemma {:induction false} SameElementsSameOrder(a: seq<File>, b: seq<File>)
    requires StrictlyAscending(a) && StrictlyAscending(b)
    requires forall f :: f in a <==> f in b
    ensures a == b
  {
    assert |a| > 0 ==> a[0] in a;
    assert |b| > 0 ==> b[0] in b;
    if a != [] {
      assert a[0] in b && b[0] in a;
      assert a[0] == b[0];
      forall f ensures f in a[1..] <==> f in b[1..] {
        if f in a[1..] {
          var i :| 1 <= i < |a| && a[i] == f;
          assert f in b && f != b[0];
        }
        if f in b[1..] {
          var i :| 1 <= i < |b| && b[i] == f;
          assert f in a && f != a[0];
        }
      }
      SameElementsSameOrder(a[1..], b[1..]);
    }
  }

  /** Scanning again after the first k pending files leaves exactly the others. */
  lemma RescanLeavesTheRest(entries: seq<DirEntry>, current: int, target: int, pending: seq<File>, k: nat,
                            files: seq<File>)
    requires IsScan(entries, current, target, pending) && StrictlyAscending(pending) && k <= |pending|
    requires IsScan(entries, if k == 0 then current else pending[k - 1].version, target, files)
    requires StrictlyAscending(files)
    ensures files == pending[k..]
  {
    var v := if k == 0 then current else pending[k - 1].version;
    if k > 0 {
      ScanMembers(entries, current, target, pending, pending[k - 1]);
    }
    forall f ensures f in files <==> f in pending[k..] {
      ScanMembers(entries, current, target, pending, f);
      ScanMembers(entries, v, target, files, f);
      if f in files {
        assert f in pending;
        var i :| 0 <= i < |pending| && pending[i] == f;
        assert i >= k;
        assert pending[k..][i - k] == f;
      }
    }
    SameElementsSameOrder(files, pending[k..]);
  }

  lemma TailIsAscending(files: seq<File>)
    requires StrictlyAscending(files) && files != []
    ensures StrictlyAscending(files[1..]) && forall f :: f in files[1..] ==> f.version > files[0].version
  {}

  lemma NewestRow(db: Db, current: int, f: File)
    requires IsCurrent(db, current) && f.version > current >= 0
    ensures IsCurrent(Committed(db, f), f.version) && Committed(db, f).log == db.log + [f]
  {}

  lemma RunByFirst(db: Db, files: seq<File>, attempts: seq<Attempt>)
    requires |attempts| == |files| > 0
    ensures RunFiles(db, files, attempts)
              == match attempts[0]
                 case Commits => RunFiles(Committed(db, files[0]), files[1..], attempts[1..])
                 case FailsCleanly => RunResult(db, false)
                 case CommitLost => RunResult(Committed(db, files[0]), false)
  {}

  /** Applying a strictly ascending list from the top of the table: some first part of it is
      committed, all of it if the run finishes, and the table's maximum follows. */
  lemma {:induction false} RunCommitsAPrefix(db: Db, current: int, files: seq<File>, attempts: seq<Attempt>)
    returns (k: nat)
    requires |attempts| == |files| && StrictlyAscending(files)
    requires IsCurrent(db, current) && forall f :: f in files ==> f.version > current >= 0
    ensures k <= |files| && RunFiles(db, files, attempts).db.log == db.log + files[..k]
    ensures IsCurrent(RunFiles(db, files, attempts).db, if k == 0 then current else files[k - 1].version)
    ensures RunFiles(db, files, attempts).finished ==> k == |files|
    decreases |files|
  {
    if files == [] {
      return 0;
    }
    hide IsCurrent, StrictlyAscending, RunFiles, Committed;
    RunByFirst(db, files, attempts);
    if attempts[0].FailsCleanly? {
      return 0;
    }
    var next := Committed(db, files[0]);
    assert files[0] in files;
    NewestRow(db, current, files[0]);
    TailIsAscending(files);
    if attempts[0].CommitLost? {
      assert files[..1] == [files[0]];
      return 1;
    }
    k := RunCommitsAPrefix(next, files[0].version, files[1..], attempts[1..]);
    k := k + 1;
    PrefixOfTail(files, k, db.log);
  }

  lemma PrefixOfTail(files: seq<File>, k: nat, log: seq<File>)
    requires 1 <= k <= |files|
    ensures (log + [files[0]]) + files[1..][..k - 1] == log + files[..k]
  {
    assert files[..k] == [files[0]] + files[1..][..k - 1];
  }

  function VersionAfter(current: int, pending: seq<File>, k: nat): int
    requires k <= |pending|
  {
    if k == 0 then current else pending[k - 1].version
  }

  lemma StartsWhereTheLastStopped(entries: seq<DirEntry>, target: int, current: int, pending: seq<File>, j: nat,
                                  files: seq<File>)
    requires IsScan(entries, current, target, pending) && NoVersionTwice(entries, current, target)
    requires j <= |pending| && IsScan(entries, VersionAfter(current, pending, j), target, files)
    ensures files == pending[j..] && StrictlyAscending(files) && VersionAfter(current, pending, j) >= current
    ensures forall f :: f in files ==> f.version > VersionAfter(current, pending, j)
  {
    var v := VersionAfter(current, pending, j);
    if j > 0 {
      ScanMembers(entries, current, target, pending, pending[j - 1]);
    }
    forall f | f in files ensures f.version > v {
      ScanMembers(entries, v, target, files, f);
    }
    ScanIsStrict(entries, current, target, current, pending);
    ScanIsStrict(entries, current, target, v, files);
    hide IsScan, NoVersionTwice;
    RescanLeavesTheRest(entries, current, target, pending, j, files);
  }

  lemma CurrentIsUnique(db: Db, u: int, v: int)
    requires IsCurrent(db, u) && IsCurrent(db, v)
    ensures u == v
  {}

  lemma OneMoreRun(entries: seq<DirEntry>, target: int, current: int, pending: seq<File>, j: nat, db: Db, r: Run)
    returns (k: nat)
    requires IsScan(entries, current, target, pending) && NoVersionTwice(entries, current, target)
    requires current >= 0 && j <= |pending| && IsCurrent(db, VersionAfter(current, pending, j))
    requires Starts(db, r) && !Blind(r) && |r.attempts| == |r.files|
    requires r.current.Some? ==> IsScan(entries, r.current.value, target, r.files)
    ensures j <= k <= |pending| && AfterRun(db, r).db.log == db.log + pending[j..k]
    ensures IsCurrent(AfterRun(db, r).db, VersionAfter(current, pending, k))
    ensures AfterRun(db, r).finished ==> k == |pending|
  {
    hide IsScan, NoVersionTwice, IsCurrent, RunFiles, StrictlyAscending, Starts;
    if r.current.None? {
      return j;
    }
    var v := VersionAfter(current, pending, j);
    StartsAtCurrent(db, r);
    CurrentIsUnique(db, r.current.value, v);
    StartsWhereTheLastStopped(entries, target, current, pending, j, r.files);
    var i := RunCommitsAPrefix(db, v, r.files, r.attempts);
    k := j + i;
    assert pending[j..k] == r.files[..i];
    assert i > 0 ==> r.files[i - 1] == pending[k - 1];
  }

  /** As long as none is blind, all the runs of a series together commit a first part of the files that were pending
      at its start - each once, ascending - and the table's version is the last of them. */
  lemma {:induction false} SeriesCommitsAPrefix(entries: seq<DirEntry>, target: int, dbs: seq<Db>, runs: seq<Run>,
                                                current: int, pending: seq<File>, n: nat) returns (k: nat)
    requires IsSeries(entries, target, dbs, runs) && n < |dbs| && NoneBlind(runs, n)
    requires IsCurrent(dbs[0], current) && current >= 0
    requires IsScan(entries, current, target, pending) && NoVersionTwice(entries, current, target)
    ensures k <= |pending| && dbs[n].log == dbs[0].log + pending[..k]
    ensures IsCurrent(dbs[n], VersionAfter(current, pending, k))
    ensures n > 0 && AfterRun(dbs[n - 1], runs[n - 1]).finished ==> k == |pending|
  {
    hide IsScan, NoVersionTwice, AfterRun, Starts, IsCurrent;
    if n == 0 {
      return 0;
    }
    var j := SeriesCommitsAPrefix(entries, target, dbs, runs, current, pending, n - 1);
    k := OneMoreRun(entries, target, current, pending, j, dbs[n - 1], runs[n - 1]);
    assert pending[..k] == pending[..j] + pending[j..k];
  }

  /** Failing and starting again equals one clean run: once a run of a series without blind
      runs finishes, the database and its version are those of a single run without failures. */
  lemma FailAndRestartEqualsCleanRun(entries: seq<DirEntry>, target: int, dbs: seq<Db>, runs: seq<Run>,
                                     current: int, pending: seq<File>, clean: seq<Attempt>, n: nat)
    requires IsSeries(entries, target, dbs, runs) && 0 < n < |dbs| && NoneBlind(runs, n)
    requires IsCurrent(dbs[0], current) && current >= 0
    requires IsScan(entries, current, target, pending) && NoVersionTwice(entries, current, target)
    requires |clean| == |pending| && forall i :: 0 <= i < |clean| ==> clean[i].Commits?
    requires AfterRun(dbs[n - 1], runs[n - 1]).finished
    ensures dbs[n].log == RunFiles(dbs[0], pending, clean).db.log == dbs[0].log + pending
    ensures forall v :: IsCurrent(dbs[n], v) <==> IsCurrent(RunFiles(dbs[0], pending, clean).db, v)
  {
    hide IsScan, NoVersionTwice, RunFiles, AfterRun, IsCurrent, NoneBlind;
    var k := SeriesCommitsAPrefix(entries, target, dbs, runs, current, pending, n);
    hide IsSeries;
    CleanRun(entries, target, current, pending, clean, dbs[0]);
    assert pending[..|pending|] == pending;
    SameCurrent(dbs[n], RunFiles(dbs[0], pending, clean).db, VersionAfter(current, pending, |pending|));
  }

  lemma CleanRun(entries: seq<DirEntry>, target: int, current: int, pending: seq<File>, clean: seq<Attempt>, db: Db)
    requires IsScan(entries, current, target, pending) && NoVersionTwice(entries, current, target)
    requires IsCurrent(db, current) && current >= 0
    requires |clean| == |pending| && forall i :: 0 <= i < |clean| ==> clean[i].Commits?
    ensures RunFiles(db, pending, clean).db.log == db.log + pending
    ensures IsCurrent(RunFiles(db, pending, clean).db, VersionAfter(current, pending, |pending|))
  {
    hide NoVersionTwice, RunFiles, IsCurrent, StrictlyAscending;
    ScanIsStrict(entries, current, target, current, pending);
    forall f | f in pending ensures f.version > current {
      ScanMembers(entries, current, target, pending, f);
    }
    hide IsScan;
    CleanRunFinishes(db, pending, clean);
    var j := RunCommitsAPrefix(db, current, pending, clean);
    assert pending[..|pending|] == pending;
  }

  lemma SameCurrent(a: Db, b: Db, v: int)
    requires IsCurrent(a, v) && IsCurrent(b, v)
    ensures forall u :: IsCurrent(a, u) <==> IsCurrent(b, u)
  {
  }

  lemma {:induction false} CleanRunFinishes(db: Db, files: seq<File>, clean: seq<Attempt>)
    requires |clean| == |files| && forall i :: 0 <= i < |clean| ==> clean[i].Commits?
    ensures RunFiles(db, files, clean).finished
    decreases |files|
  {
    if files != [] {
      CleanRunFinishes(Committed(db, files[0]), files[1..], clean[1..]);
    }
  }

  /** Without `RunFiles`: the files in front of the first attempt that does not commit, all of
      them if there is none, and the one of that attempt only if its commit was lost; and
      each with its row. */
  lemma {:induction false} StopsAtTheFirstFailure(db: Db, files: seq<File>, attempts: seq<Attempt>, k: nat)
    requires |attempts| == |files| && k <= |files| && forall i :: 0 <= i < k ==> attempts[i].Commits?
    requires k < |files| ==> !attempts[k].Commits?
    ensures var r, last := RunFiles(db, files, attempts), k < |files| && attempts[k].CommitLost?;
            && (r.finished <==> k == |files|)
            && r.db.log == db.log + files[..if last then k + 1 else k]
            && forall v :: v in r.db.rows <==>
                             v in db.rows || exists i :: 0 <= i < (if last then k + 1 else k) && files[i].version == v
    decreases |files|
  {
    if k == 0 {
      if files != [] && attempts[0].CommitLost? {
        assert files[..1] == [files[0]];
      }
    } else {
      var upTo := if k < |files| && attempts[k].CommitLost? then k + 1 else k;
      var next := Committed(db, files[0]);
      StopsAtTheFirstFailure(next, files[1..], attempts[1..], k - 1);
      PrefixOfTail(files, upTo, db.log);
      forall v ensures (v in next.rows || exists i :: 0 <= i < upTo - 1 && files[1..][i].version == v)
                       <==> v in db.rows || exists i :: 0 <= i < upTo && files[i].version == v
      {
        if i :| 0 <= i < upTo && files[i].version == v {
          assert i > 0 ==> files[1..][i - 1].version == v;
        }
      }
    }
  }

  lemma {:induction false} RunAppends(db: Db, files: seq<File>, attempts: seq<Attempt>) returns (k: nat)
    requires |attempts| == |files|
    ensures k <= |files| && RunFiles(db, files, attempts).db.log == db.log + files[..k]
    ensures db.rows <= RunFiles(db, files, attempts).db.rows
    decreases |files|
  {
    if files == [] || attempts[0].FailsCleanly? {
      return 0;
    }
    if attempts[0].CommitLost? {
      assert files[..1] == [files[0]];
      return 1;
    }
    k := RunAppends(Committed(db, files[0]), files[1..], attempts[1..]);
    k := k + 1;
    assert files[..k] == [files[0]] + files[1..][..k - 1];
  }

  /** Whatever a series of runs applies, blind runs included, is a migration of the directory;
      and with a target nothing above the target is ever applied. */
  lemma {:induction false} AppliedWithinTarget(entries: seq<DirEntry>, target: int, dbs: seq<Db>, runs: seq<Run>,
                                               n: nat) returns (added: seq<File>)
    requires IsSeries(entries, target, dbs, runs) && n < |dbs|
    ensures dbs[n].log == dbs[0].log + added
    ensures forall f :: f in added ==>
              && DirEntry(f.name, false) in entries && |f.name| >= 7 && f.name[|f.name| - 7..] == ".up.sql"
              && f.version == ExtractVersion(f.name)
              && (target > 0 ==> f.version <= target)
  {
    hide IsScan, RunFiles, Starts, ExtractVersion;
    if n == 0 {
      added := [];
      assert dbs[0].log == dbs[0].log + [];
    } else {
      added := AppliedWithinTarget(entries, target, dbs, runs, n - 1);
      var r := runs[n - 1];
      if r.current.Some? {
        ScanIsWhatIsPending(entries, r.current.value, target, r.files);
        var k := RunAppends(dbs[n - 1], r.files, r.attempts);
        added := added + r.files[..k];
      }
    }
  }

  /** A file whose version is not above a recorded one is applied again, in any series of runs,
      only by a blind run. */
  lemma {:induction false} AppliedAgainOnlyIfBlind(entries: seq<DirEntry>, target: int, dbs: seq<Db>, runs: seq<Run>,
                                                   f: File, row: int, n: nat) returns (added: seq<File>)
    requires IsSeries(entries, target, dbs, runs) && n < |dbs|
    requires row in dbs[0].rows && f.version <= row
    ensures dbs[n].log == dbs[0].log + added && row in dbs[n].rows
    ensures f in added ==> exists i :: 0 <= i < n && Blind(runs[i])
  {
    hide IsScan, RunFiles, Starts;
    if n == 0 {
      return [];
    }
    var before := AppliedAgainOnlyIfBlind(entries, target, dbs, runs, f, row, n - 1);
    var r := runs[n - 1];
    if r.current.None? {
      return before;
    }
    if !Blind(r) {
      NotScannedAgain(entries, target, dbs[n - 1], r, f, row);
    }
    var k := RunAppends(dbs[n - 1], r.files, r.attempts);
    added := before + r.files[..k];
  }

  lemma NotScannedAgain(entries: seq<DirEntry>, target: int, db: Db, r: Run, f: File, row: int)
    requires Starts(db, r) && !Blind(r) && r.current.Some? && IsScan(entries, r.current.value, target, r.files)
    requires row in db.rows && f.version <= row
    ensures f !in r.files
  {
    StartsAtCurrent(db, r);
    ScanMembers(entries, r.current.value, target, r.files, f);
  }

  /** So with no blind run it is never applied again. */
  lemma NotAboveRecordedNeverApplied(entries: seq<DirEntry>, target: int, dbs: seq<Db>, runs: seq<Run>,
                                     f: File, row: int, n: nat) returns (added: seq<File>)
    requires IsSeries(entries, target, dbs, runs) && n < |dbs| && NoneBlind(runs, n)
    requires row in dbs[0].rows && f.version <= row
    ensures dbs[n].log == dbs[0].log + added && f !in added && row in dbs[n].rows
  {
    added := AppliedAgainOnlyIfBlind(entries, target, dbs, runs, f, row, n);
  }

  /** The hypothesis is needed, whatever is pending: on an empty table a clean run, and then
      one whose query fails, apply every file twice. */
  lemma BlindRunAppliesAllTwice(entries: seq<DirEntry>, target: int, pending: seq<File>, clean: seq<Attempt>)
    returns (dbs: seq<Db>, runs: seq<Run>)
    requires IsScan(entries, 0, target, pending)
    requires |clean| == |pending| && forall i :: 0 <= i < |clean| ==> clean[i].Commits?
    ensures IsSeries(entries, target, dbs, runs) && |dbs| == 3
    ensures dbs[0] == Db([], {}) && dbs[2].log == pending + pending && runs[0].queried && !runs[1].queried
    ensures NoneBlind(runs, 1) && Blind(runs[1])
  {
    var r0, r1 := Run(Auto, true, Some(0), pending, clean), Run(Auto, false, Some(0), pending, clean);
    var d0 := Db([], {});
    var d1 := AfterRun(d0, r0).db;
    var d2 := AfterRun(d1, r1).db;
    CleanRunCommitsAll(d0, pending, clean);
    CleanRunCommitsAll(d1, pending, clean);
    dbs, runs := [d0, d1, d2], [r0, r1];
    hide IsScan, RunFiles, IsCurrent;
    assert StartVersion(Auto, None) == Some(0);
    assert Starts(d0, r0) && Starts(d1, r1);
  }

  lemma {:induction false} CleanRunCommitsAll(db: Db, files: seq<File>, clean: seq<Attempt>)
    requires |clean| == |files| && forall i :: 0 <= i < |clean| ==> clean[i].Commits?
    ensures RunFiles(db, files, clean).db.log == db.log + files
    decreases |files|
  {
    if files != [] {
      CleanRunCommitsAll(Committed(db, files[0]), files[1..], clean[1..]);
      assert files == [files[0]] + files[1..];
    }
  }

  /** Versions that are distinct in the list were distinct in the directory. */
  lemma {:induction false} ListedTells(entries: seq<DirEntry>, current: int, target: int)
    requires DistinctVersions(Listed(entries, current, target))
    ensures NoVersionTwice(entries, current, target)
  {
    if entries != [] {
      var n := |entries| - 1;
      var front := Listed(entries[..n], current, target);
      assert forall i :: 0 <= i < |front| ==> front[i] == Listed(entries, current, target)[i];
      ListedTells(entries[..n], current, target);
      forall i | 0 <= i < n && Eligible(entries[i], current, target) && Eligible(entries[n], current, target)
        ensures FileOf(entries[i]).version != FileOf(entries[n]).version
      {
        assert entries[..n][i] == entries[i];
        ListedMembers(entries[..n], current, target, FileOf(entries[i]));
        var k :| 0 <= k < |front| && front[k] == FileOf(entries[i]);
        assert Listed(entries, current, target)[|front|] == FileOf(entries[n]);
      }
      assert forall i :: 0 <= i < n ==> entries[..n][i] == entries[i];
    }
  }

  /** A version that comes twice comes twice in a row. */
  lemma DoubledVersionsAreNeighbours(entries: seq<DirEntry>, current: int, target: int, pending: seq<File>)
    returns (i: nat)
    requires IsScan(entries, current, target, pending) && !NoVersionTwice(entries, current, target)
    ensures i + 1 < |pending| && pending[i].version == pending[i + 1].version
  {
    if DistinctVersions(pending) {
      RearrangedDistinct(pending, Listed(entries, current, target));
      ListedTells(entries, current, target);
    }
    assert !DistinctVersions(pending);
    var j;
    i, j :| 0 <= i < j < |pending| && pending[i].version == pending[j].version;
    assert pending[i].version <= pending[i + 1].version <= pending[j].version;
  }

  /** Distinct versions are needed too. With a version twice there is a point at which a run can
      stop such that no series of later runs, blind ones apart, applies the file that comes
      next and that one clean run would have applied. */
  lemma StoppingBetweenLosesAFile(entries: seq<DirEntry>, current: int, target: int, pending: seq<File>, db: Db)
    returns (i: nat)
    requires IsScan(entries, current, target, pending) && !NoVersionTwice(entries, current, target)
    ensures i + 1 < |pending|
    ensures forall dbs: seq<Db>, runs: seq<Run>, n: nat ::
              IsSeries(entries, target, dbs, runs) && n < |dbs| && NoneBlind(runs, n)
              && dbs[0] == RunFiles(db, pending, StopAt(i + 1, |pending|)).db ==>
                dbs[0].log == db.log + pending[..i + 1] && LeavesOut(dbs[0].log, dbs[n].log, pending[i + 1])
  {
    i := DoubledVersionsAreNeighbours(entries, current, target, pending);
    forall dbs: seq<Db>, runs: seq<Run>, n: nat |
        IsSeries(entries, target, dbs, runs) && n < |dbs| && NoneBlind(runs, n)
        && dbs[0] == RunFiles(db, pending, StopAt(i + 1, |pending|)).db
      ensures dbs[0].log == db.log + pending[..i + 1] && LeavesOut(dbs[0].log, dbs[n].log, pending[i + 1])
    {
      var added := SecondOfAVersionIsLost(entries, current, target, pending, i, db, dbs, runs, n);
    }
  }

  /** The longer log goes on from the shorter one without f. */
  ghost predicate LeavesOut(log: seq<File>, longer: seq<File>, f: File) {
    log <= longer && f !in longer[|log|..]
  }

  /** So with a version twice among the pending files the promise fails: if a run commits the
      first of the two and stops there, no series of later runs ever applies the second,
      which one clean run would have applied. */
  lemma SecondOfAVersionIsLost(entries: seq<DirEntry>, current: int, target: int, pending: seq<File>, i: nat, db: Db,
                               dbs: seq<Db>, runs: seq<Run>, n: nat) returns (added: seq<File>)
    requires IsScan(entries, current, target, pending) && i + 1 < |pending|
    requires pending[i].version == pending[i + 1].version
    requires IsSeries(entries, target, dbs, runs) && n < |dbs| && NoneBlind(runs, n)
    requires dbs[0] == RunFiles(db, pending, StopAt(i + 1, |pending|)).db
    ensures dbs[0].log == db.log + pending[..i + 1]
    ensures dbs[n].log == dbs[0].log + added && pending[i + 1] !in added
  {
    StoppedRun(db, pending, i + 1);
    added := NotAboveRecordedNeverApplied(entries, target, dbs, runs, pending[i + 1], pending[i].version, n);
  }

  function StopAt(k: nat, n: nat): (attempts: seq<Attempt>)
    requires k <= n
    ensures |attempts| == n
  {
    seq(n, j => if j < k then Commits else FailsCleanly)
  }

  lemma {:induction false} StoppedRun(db: Db, files: seq<File>, k: nat)
    requires 0 < k < |files|
    ensures RunFiles(db, files, StopAt(k, |files|)).db.log == db.log + files[..k]
    ensures files[k - 1].version in RunFiles(db, files, StopAt(k, |files|)).db.rows
    decreases |files|
  {
    var a := StopAt(k, |files|);
    var next := Committed(db, files[0]);
    assert a[1..] == StopAt(k - 1, |files| - 1);
    if k == 1 {
      assert a[1..][0] == FailsCleanly;
      assert files[..1] == [files[0]];
    } else {
      StoppedRun(next, files[1..], k - 1);
      assert files[..k] == [files[0]] + files[1..][..k - 1];
    }
  }
}
