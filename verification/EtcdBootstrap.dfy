/**
  How a pod decides to start etcd (internal/etcdmanager/bootstrap.go): join a reachable
  cluster, create a new one, or wait; and how long a learner waits before it is promoted.
  What kubectl and etcdctl answer are parameters.
 */
module EtcdBootstrap {
  import opened Common

  type Pod = string

  datatype ClusterState = Existing | ColdStart | Waiting

  /** `kubectl exec .. test -f db`: an error, or the command's output. */
  datatype Answer = ExecError | Output(text: string)

  /** unicode.IsSpace, what strings.TrimSpace cuts. */
  predicate IsSpace(c: char) {
    || '\t' <= c <= '\r' || c == ' ' || c == '\U{85}' || c == '\U{A0}' || c == '\U{1680}'
    || '\U{2000}' <= c <= '\U{200A}' || c == '\U{2028}' || c == '\U{2029}' || c == '\U{202F}' || c == '\U{205F}'
    || c == '\U{3000}'
  }

  predicate IsBlank(s: string) {
    forall i :: 0 <= i < |s| ==> IsSpace(s[i])
  }

  datatype Config = Config(self: Pod, index: int)

  /** A peer whose answer rules out that it has data. Only an answer that is not an error and
      not blank does. */
  predicate RulesOutData(a: Answer) {
    a.Output? && !IsBlank(a.text)
  }

  method FindReachablePeer(peers: seq<Pod>, healthy: Pod -> bool) returns (found: Option<Pod>)
    ensures found.Some? ==>
              exists i :: 0 <= i < |peers| && found.value == peers[i] && healthy(peers[i])
                          && forall j :: 0 <= j < i ==> !healthy(peers[j])
    ensures found.None? ==> forall p :: p in peers ==> !healthy(p)
  {
    for i := 0 to |peers|
      invariant forall j :: 0 <= j < i ==> !healthy(peers[j])
    {
      if healthy(peers[i]) {
        return Some(peers[i]);
      }
    }
    return None;
  }

  method PeerHasData(a: Answer) returns (hasData: bool, failed: bool)
    ensures !hasData && !failed <==> RulesOutData(a)
    ensures failed <==> a == ExecError
    ensures hasData <==> a.Output? && forall c :: c in a.text ==> IsSpace(c)
  {
    match a
    case ExecError => return false, true;
    case Output(text) => return IsBlank(text), false;
  }

  predicate MayColdStart(cfg: Config, localData: bool, peers: seq<Pod>, healthy: Pod -> bool, test: Pod -> Answer) {
    && (forall i :: 0 <= i < |peers| ==> !healthy(peers[i]))
    && cfg.index == 0 && !localData
    && (forall i :: 0 <= i < |peers| && peers[i] != cfg.self ==> RulesOutData(test(peers[i])))
  }

  function Decision(cfg: Config, localData: bool, peers: seq<Pod>, healthy: Pod -> bool, test: Pod -> Answer)
    : ClusterState
  {
    if exists i :: 0 <= i < |peers| && healthy(peers[i]) then Existing
    else if MayColdStart(cfg, localData, peers, healthy, test) then ColdStart
    else Waiting
  }

  method DetectClusterState(cfg: Config, localData: bool, peers: seq<Pod>, healthy: Pod -> bool, test: Pod -> Answer)
    returns (state: ClusterState)
    ensures state == Decision(cfg, localData, peers, healthy, test)
    ensures state == Existing <==> exists p :: p in peers && healthy(p)
    ensures state == ColdStart
            <==> && (forall p :: p in peers ==> !healthy(p)) && cfg.index == 0 && !localData
                 && forall p :: p in peers && p != cfg.self ==>
                      test(p).Output? && exists c :: c in test(p).text && !IsSpace(c)
  {
    var leader := FindReachablePeer(peers, healthy);
    if leader.Some? {
      return Existing;
    }
    if cfg.index != 0 {
      return Waiting;
    }
    if localData {
      return Waiting;
    }
    for i := 0 to |peers|
      invariant forall j :: 0 <= j < i && peers[j] != cfg.self ==> RulesOutData(test(peers[j]))
    {
      if peers[i] == cfg.self {
        continue;
      }
      var hasData, failed := PeerHasData(test(peers[i]));
      if failed {
        return Waiting;
      }
      if hasData {
        return Waiting;
      }
    }
    return ColdStart;
  }

  /** `test -f` prints nothing, and kubectl exec reports its non-zero exit as an error. So it
      never rules data out ... */
  function TestF(reachable: bool, hasFile: bool): Answer {
    if reachable && hasFile then Output("") else ExecError
  }

  /** ... and a cold start happens exactly when the pod sees no other peer at all: one
      reachable peer without data is enough to wait. */
  lemma ColdStartOnlyAlone(cfg: Config, localData: bool, peers: seq<Pod>, healthy: Pod -> bool,
                           reachable: set<Pod>, hasFile: set<Pod>)
    ensures Decision(cfg, localData, peers, healthy, p => TestF(p in reachable, p in hasFile)) == ColdStart
            <==> && cfg.index == 0 && !localData
                 && forall i :: 0 <= i < |peers| ==> peers[i] == cfg.self && !healthy(peers[i])
  {
    var test := p => TestF(p in reachable, p in hasFile);
    forall i | 0 <= i < |peers| ensures !RulesOutData(test(peers[i])) {
    }
  }

  // ----- pods over time

  /** `data` are the pods with an etcd database on disk, `running` those whose etcd is up,
      `decided` what DetectClusterState returned to a pod that has not acted on it yet. */
  datatype World = World(data: set<Pod>, running: set<Pod>, decided: map<Pod, ClusterState>, created: nat)

  datatype Event =
    | Detect(pod: Pod, peers: seq<Pod>, answering: set<Pod>, answers: map<Pod, Answer>)
    | Seed(pod: Pod)
    | Join(pod: Pod)
    | GiveUp(pod: Pod)                    // the start failed, or the pod crashed before it
    | Crash(pod: Pod)
    | Restart(pod: Pod)
    | LoseData(pod: Pod)

  function AnswerOf(answers: map<Pod, Answer>, p: Pod): Answer {
    if p in answers then answers[p] else ExecError
  }

  /** The environment: only a running etcd answers a health check, and any may fail to; a pod
      with data answers `test -f` with nothing or not at all. */
  ghost predicate Enabled(w: World, e: Event) {
    match e
    case Detect(p, peers, answering, answers) =>
      && p !in w.decided
      && answering <= w.running
      && (forall q :: q in w.data ==> AnswerOf(answers, q) == ExecError || AnswerOf(answers, q) == Output(""))
    case Seed(p) => p in w.decided && w.decided[p] == ColdStart
    case Join(p) => p in w.decided && w.decided[p] == Existing && w.running != {}
    case GiveUp(p) => p in w.decided
    case Crash(_) => true
    case Restart(p) => p in w.data
    case LoseData(_) => true
  }

  ghost function Apply(w: World, e: Event, index: Pod -> int): World
    requires Enabled(w, e)
  {
    match e
    case Detect(p, peers, answering, answers) =>
      var d := Decision(Config(p, index(p)), p in w.data, peers, q => q in answering, q => AnswerOf(answers, q));
      w.(decided := w.decided[p := d])
    case Seed(p) => World(w.data + {p}, w.running + {p}, w.decided - {p}, w.created + 1)
    case Join(p) => World(w.data + {p}, w.running + {p}, w.decided - {p}, w.created)
    case GiveUp(p) => w.(decided := w.decided - {p})
    case Crash(p) => w.(running := w.running - {p})
    case Restart(p) => w.(running := w.running + {p})
    case LoseData(p) => w.(data := w.data - {p}, running := w.running - {p})
  }

  ghost predicate IsRun(worlds: seq<World>, events: seq<Event>, index: Pod -> int) {
    && |worlds| == |events| + 1
    && worlds[0] == World({}, {}, map[], 0)
    && forall i :: 0 <= i < |events| ==>
                     Enabled(worlds[i], events[i]) && worlds[i + 1] == Apply(worlds[i], events[i], index)
  }

  ghost predicate OneFirstPod(index: Pod -> int) {
    forall p, q :: index(p) == 0 && index(q) == 0 ==> p == q
  }

  /** Each peer list names every other pod that holds data. */
  ghost predicate PeersListed(worlds: seq<World>, events: seq<Event>) {
    forall i :: 0 <= i < |events| && i < |worlds| ==> ListsData(worlds[i], events[i])
  }

  ghost predicate ListsData(w: World, e: Event) {
    e.Detect? ==> forall q :: q in w.data && q != e.pod ==> q in e.peers
  }

  ghost predicate NoStaleColdStart(w: World, index: Pod -> int) {
    && w.running <= w.data
    && forall p :: p in w.decided && w.decided[p] == ColdStart ==> index(p) == 0 && w.data == {}
  }

  lemma StepKeeps(w: World, e: Event, index: Pod -> int)
    requires OneFirstPod(index) && NoStaleColdStart(w, index) && Enabled(w, e) && ListsData(w, e)
    ensures NoStaleColdStart(Apply(w, e, index), index)
  {
    if e.Detect? && Apply(w, e, index).decided[e.pod] == ColdStart {
      forall q | q in e.peers && q != e.pod ensures q !in w.data {
        var i :| 0 <= i < |e.peers| && e.peers[i] == q;
        assert RulesOutData(AnswerOf(e.answers, e.peers[i]));
      }
      assert w.data == {};
    }
  }

  lemma {:induction false} ReachableKeeps(worlds: seq<World>, events: seq<Event>, index: Pod -> int, n: nat)
    requires OneFirstPod(index) && IsRun(worlds, events, index) && PeersListed(worlds, events) && n < |worlds|
    ensures NoStaleColdStart(worlds[n], index)
  {
    if n > 0 {
      ReachableKeeps(worlds, events, index, n - 1);
      StepKeeps(worlds[n - 1], events[n - 1], index);
    }
  }

  /** Through any history of starts, crashes, partitions and lost disks, a cluster is created
      only when no pod holds data - also when time passes between decision and creation. */
  lemma CreatedOnlyWithoutData(worlds: seq<World>, events: seq<Event>, index: Pod -> int, n: nat)
    requires OneFirstPod(index) && IsRun(worlds, events, index) && PeersListed(worlds, events) && n < |events|
    ensures events[n].Seed? <==> worlds[n + 1].created > worlds[n].created
    ensures events[n].Seed? ==> worlds[n].data == {}
  {
    ReachableKeeps(worlds, events, index, n);
  }

  /** So while some pod keeps data no second cluster appears. */
  lemma {:induction false} AtMostOneClusterWhileDataSurvives(worlds: seq<World>, events: seq<Event>, index: Pod -> int,
                                                              m: nat, n: nat)
    requires OneFirstPod(index) && IsRun(worlds, events, index) && PeersListed(worlds, events) && m <= n < |worlds|
    requires forall i :: m <= i < n ==> worlds[i].data != {}
    ensures worlds[n].created == worlds[m].created
    decreases n
  {
    if m < n {
      AtMostOneClusterWhileDataSurvives(worlds, events, index, m, n - 1);
      CreatedOnlyWithoutData(worlds, events, index, n - 1);
    }
  }

  /** Both hypotheses are needed. Two pods that both count as the first - a name without a
      number counts as 0 - create two clusters side by side. */
  lemma TwoFirstPods(a: Pod, b: Pod) returns (worlds: seq<World>, events: seq<Event>)
    requires a != b
    ensures IsRun(worlds, events, p => 0) && PeersListed(worlds, events)
    ensures |worlds| > 0 && worlds[|worlds| - 1].created == 2
    ensures forall i :: 3 <= i < |worlds| ==> a in worlds[i].data
  {
    var index := (p: Pod) => 0;
    var w0 := World({}, {}, map[], 0);
    var e0, e1 := Detect(a, [], {}, map[]), Detect(b, [], {}, map[]);
    var w1 := Apply(w0, e0, index);
    var w2 := Apply(w1, e1, index);
    var w3 := Apply(w2, Seed(a), index);
    var w4 := Apply(w3, Seed(b), index);
    worlds := [w0, w1, w2, w3, w4];
    events := [e0, e1, Seed(a), Seed(b)];
  }

  /** With a single first pod, so does a peer list that leaves out a pod with data: a creates
      the cluster, b joins it, a loses its disk, and a, not told of b, creates another one
      while b still holds the data of the first. */
  lemma UnlistedPeer(a: Pod, b: Pod) returns (worlds: seq<World>, events: seq<Event>, index: Pod -> int)
    requires a != b
    ensures OneFirstPod(index) && IsRun(worlds, events, index)
    ensures |worlds| > 0 && worlds[|worlds| - 1].created == 2
    ensures forall i :: 4 <= i < |worlds| ==> b in worlds[i].data
  {
    index := (p: Pod) => if p == a then 0 else 1;
    var w0 := World({}, {}, map[], 0);
    var alone, other := Detect(a, [], {}, map[]), Detect(b, [a], {a}, map[]);
    var w1 := Apply(w0, alone, index);
    var w2 := Apply(w1, Seed(a), index);
    assert w2 == World({a}, {a}, map[], 1);
    assert [a][0] == a;
    var w3 := Apply(w2, other, index);
    var w4 := Apply(w3, Join(b), index);
    assert w4 == World({a, b}, {a, b}, map[], 1);
    var w5 := Apply(w4, LoseData(a), index);
    var w6 := Apply(w5, alone, index);
    var w7 := Apply(w6, Seed(a), index);
    worlds := [w0, w1, w2, w3, w4, w5, w6, w7];
    events := [alone, Seed(a), other, Join(b), LoseData(a), alone, Seed(a)];
  }

  // ----- waiting for a learner to catch up

  /** One tick: when, and the two raft indexes, None if the query failed. */
  datatype Sample = Sample(at: int, leader: Option<int>, mine: Option<int>)

  /** A failed query counts as index 0. */
  function Lag(s: Sample): int {
    (if s.leader.Some? then s.leader.value else 0) - (if s.mine.Some? then s.mine.value else 0)
  }

  const SECOND: int := 1_000_000_000

  function Window(configured: int, totalPods: int): int {
    if totalPods <= 3 then 5 * SECOND else if totalPods <= 5 then 8 * SECOND else configured
  }

  /** At sample n every sample over a trailing span of at least the window was below. */
  ghost predicate Stable(samples: seq<Sample>, limit: int, window: int, n: int) {
    0 <= n < |samples| && exists i :: StableSince(samples, limit, window, i, n)
  }

  ghost predicate StableSince(samples: seq<Sample>, limit: int, window: int, i: int, n: int) {
    && 0 <= i < n < |samples|
    && samples[n].at - samples[i].at >= window
    && forall j :: i <= j <= n ==> Lag(samples[j]) < limit
  }

  /** The samples are those that arrive before the deadline. The result is the first sample
      at which the learner was stable, None if it never was (a timeout). */
  method WaitForCatchUp(samples: seq<Sample>, limit: int, configured: int, totalPods: int) returns (done: Option<nat>)
    requires forall i, j :: 0 <= i <= j < |samples| ==> samples[i].at <= samples[j].at
    ensures done.Some? ==> Stable(samples, limit, Window(configured, totalPods), done.value)
    ensures forall n :: 0 <= n < (if done.Some? then done.value else |samples|) ==>
                          !Stable(samples, limit, Window(configured, totalPods), n)
  {
    var since: Option<int> := None;
    ghost var first := 0;
    for n := 0 to |samples|
      invariant since.Some? ==> 0 <= first < n && since.value == samples[first].at
                                && forall j :: first <= j < n ==> Lag(samples[j]) < limit
      invariant since.Some? && first > 0 ==> Lag(samples[first - 1]) >= limit
      invariant since.None? && n > 0 ==> Lag(samples[n - 1]) >= limit
      invariant forall m :: 0 <= m < n ==> !Stable(samples, limit, Window(configured, totalPods), m)
    {
      var lag := Lag(samples[n]);
      var stableWindow := configured;
      if totalPods <= 3 {
        stableWindow := 5 * SECOND;
      } else if totalPods <= 5 {
        stableWindow := 8 * SECOND;
      }
      if lag < limit {
        if since.None? {
          since := Some(samples[n].at);
          first := n;
        } else if samples[n].at - since.value >= stableWindow {
          assert StableSince(samples, limit, stableWindow, first, n);
          return Some(n);
        }
      } else {
        since := None;
      }
      assert !Stable(samples, limit, stableWindow, n);
    }
    return None;
  }

  /** In numbers: nanoseconds, and a query that fails counts as index 0. */
  lemma StableInNumbers(samples: seq<Sample>, limit: int, configured: int, totalPods: int, n: nat)
    requires n < |samples|
    ensures Stable(samples, limit, Window(configured, totalPods), n)
            <==> exists i :: 0 <= i < n
                   && samples[n].at - samples[i].at >= (if totalPods <= 3 then 5_000_000_000
                                                        else if totalPods <= 5 then 8_000_000_000 else configured)
                   && forall j :: i <= j <= n ==>
                        (match samples[j].leader case Some(x) => x case None => 0)
                        < limit + (match samples[j].mine case Some(x) => x case None => 0)
  {
    assert forall i :: StableSince(samples, limit, Window(configured, totalPods), i, n) <==>
      && 0 <= i < n && samples[n].at - samples[i].at >= Window(configured, totalPods)
      && forall j :: i <= j <= n ==>
           (match samples[j].leader case Some(x) => x case None => 0)
           < limit + (match samples[j].mine case Some(x) => x case None => 0);
  }

  /** Failed queries look like a learner that has caught up: with every query failing, two
      ticks a window apart are enough for a promotion. */
  lemma FailuresCountAsCaughtUp(samples: seq<Sample>, limit: int, window: int, n: nat)
    requires limit > 0 && 0 < n < |samples| && samples[n].at - samples[0].at >= window
    requires forall j :: 0 <= j <= n ==> samples[j].leader == None && samples[j].mine == None
    ensures Stable(samples, limit, window, n)
  {
    assert StableSince(samples, limit, window, 0, n);
  }
}
