/**
  Leader election through a Kubernetes Lease object that is read with `get` and written
  with `create` or `patch` (internal/controller/lease.go). Neither write carries a
  resourceVersion, and an error leaves the caller's role as it was.

  A try has two halves: the read, which also takes the time that will be written, and the
  write. `Try` is both halves as one atomic step; `Begin` and `End` keep them apart. All
  pods share one clock; times are integers.
 */
module K8sLease {
  import opened Common

  type Pod = string

  datatype Stored = Stored(holder: Pod, renewed: int, transitions: int)

  /** What the API server answers to the write. `Lost`: it took effect, but the caller sees
      an error. */
  datatype Reply = Succeeds | Fails | Lost

  /** What the read half decides to do. */
  datatype Plan =
    | Broken                                // get or parse error
    | Wait                                  // held by another pod and not expired
    | Create(at: int)
    | Renew(at: int)
    | TakeOver(at: int, transitions: int)

  datatype Verdict = Leader | NotLeader | Error

  datatype Outcome = Outcome(lease: Option<Stored>, verdict: Verdict)

  function Decide(lease: Option<Stored>, self: Pod, now: int, ttl: int): Plan {
    match lease
    case None => Create(now)
    case Some(l) =>
      if l.holder == self then Renew(now)
      else if now - l.renewed > ttl then TakeOver(now, l.transitions + 1)
      else Wait
  }

  /** The write meets the object as it is now, which need not be the one that was read. */
  function Finish(lease: Option<Stored>, self: Pod, plan: Plan, reply: Reply): Outcome {
    match plan
    case Broken => Outcome(lease, Error)
    case Wait => Outcome(lease, NotLeader)
    case Create(at) =>
      if reply == Fails then Outcome(lease, Error)
      else if lease == None then Outcome(Some(Stored(self, at, 0)), if reply == Succeeds then Leader else Error)
      else Outcome(lease, if reply == Succeeds then NotLeader else Error)     // AlreadyExists
    case Renew(at) =>
      if reply == Fails || lease == None then Outcome(lease, Error)
      else Outcome(Some(Stored(self, at, lease.value.transitions)), if reply == Succeeds then Leader else Error)
    case TakeOver(at, n) =>
      if reply == Fails || lease == None then Outcome(lease, NotLeader)
      else Outcome(Some(Stored(self, at, n)), if reply == Succeeds then Leader else NotLeader)
  }

  function Attempt(lease: Option<Stored>, self: Pod, now: int, ttl: int, readOk: bool, reply: Reply): Outcome {
    Finish(lease, self, if readOk then Decide(lease, self, now, ttl) else Broken, reply)
  }

  function RoleAfter(leading: bool, verdict: Verdict): bool {
    if verdict == Error then leading else verdict == Leader
  }

  /** The Lease object in the API server. */
  class LeaseObject {
    var stored: Option<Stored>

    constructor ()
      ensures stored == None
    {
      stored := None;
    }
  }

  /** One pod's side of RunWithK8sLeaseElection. */
  class Elector {
    const identity: Pod
    const ttl: int
    var leading: bool

    constructor (identity: Pod, ttl: int)
      ensures this.identity == identity && this.ttl == ttl && !leading
    {
      this.identity, this.ttl, leading := identity, ttl, false;
    }

    method TryAcquireOrRenew(lease: LeaseObject, now: int, readOk: bool, reply: Reply) returns (verdict: Verdict)
      modifies lease
      ensures Outcome(lease.stored, verdict) == Attempt(old(lease.stored), identity, now, ttl, readOk, reply)
    {
      if !readOk {
        return Error;
      }
      if lease.stored == None {
        if reply == Fails {
          return Error;
        }
        lease.stored := Some(Stored(identity, now, 0));
        return if reply == Succeeds then Leader else Error;
      }
      var l := lease.stored.value;
      var expired := now - l.renewed > ttl;
      if l.holder == identity {
        if reply != Fails {
          lease.stored := Some(l.(renewed := now));
        }
        return if reply == Succeeds then Leader else Error;
      }
      if !expired {
        return NotLeader;
      }
      if reply != Fails {
        lease.stored := Some(Stored(identity, now, l.transitions + 1));
      }
      return if reply == Succeeds then Leader else NotLeader;
    }

    /** One turn of the ticker loop. */
    method Tick(lease: LeaseObject, now: int, readOk: bool, reply: Reply)
      modifies this, lease
      ensures var o := Attempt(old(lease.stored), identity, now, ttl, readOk, reply);
              lease.stored == o.lease && leading == RoleAfter(old(leading), o.verdict)
    {
      var verdict := TryAcquireOrRenew(lease, now, readOk, reply);
      if verdict == Error {
        return;
      }
      if verdict == Leader && !leading {
        leading := true;
      } else if verdict != Leader && leading {
        leading := false;
      }
    }
  }

  // ----- any number of pods

  /** `lastOk` is the time of the pod's last successful try. */
  datatype PodState = PodState(leading: bool, lastOk: int, plan: Option<Plan>)

  datatype World = World(now: int, lease: Option<Stored>, pods: map<Pod, PodState>)

  datatype Event =
    | Try(pod: Pod, at: int, readOk: bool, reply: Reply)
    | Begin(pod: Pod, at: int, readOk: bool)
    | End(pod: Pod, at: int, reply: Reply)
    | Quit(pod: Pod, at: int)

  predicate Enabled(w: World, e: Event) {
    && e.at >= w.now && e.pod in w.pods
    && match e
       case Try(p, _, _, _) => w.pods[p].plan == None
       case Begin(p, _, _) => w.pods[p].plan == None
       case End(p, _, _) => w.pods[p].plan != None
       case Quit(p, _) => true
  }

  function Conclude(w: World, p: Pod, plan: Plan, reply: Reply, at: int): World
    requires p in w.pods
  {
    var o := Finish(w.lease, p, plan, reply);
    var s := w.pods[p];
    var t := PodState(RoleAfter(s.leading, o.verdict),
                      if o.verdict == Leader && !plan.Broken? && !plan.Wait? then plan.at else s.lastOk, None);
    World(at, o.lease, w.pods[p := t])
  }

  function Apply(w: World, e: Event, ttl: int): World
    requires Enabled(w, e)
  {
    match e
    case Try(p, at, readOk, reply) =>
      Conclude(w, p, if readOk then Decide(w.lease, p, at, ttl) else Broken, reply, at)
    case Begin(p, at, readOk) =>
      var plan := if readOk then Decide(w.lease, p, at, ttl) else Broken;
      w.(now := at, pods := w.pods[p := w.pods[p].(plan := Some(plan))])
    case End(p, at, reply) => Conclude(w, p, w.pods[p].plan.value, reply, at)
    case Quit(p, at) => w.(now := at, pods := w.pods[p := PodState(false, w.pods[p].lastOk, None)])
  }

  ghost predicate IsRun(worlds: seq<World>, events: seq<Event>, ttl: int) {
    && |worlds| == |events| + 1
    && worlds[0].lease == None
    && (forall p :: p in worlds[0].pods ==> !worlds[0].pods[p].leading && worlds[0].pods[p].plan == None)
    && forall i :: 0 <= i < |events| ==>
                     Enabled(worlds[i], events[i]) && worlds[i + 1] == Apply(worlds[i], events[i], ttl)
  }

  ghost predicate Atomic(events: seq<Event>) {
    forall i :: 0 <= i < |events| ==> events[i].Try? || events[i].Quit?
  }

  predicate Leads(w: World, p: Pod) {
    p in w.pods && w.pods[p].leading
  }

  /** A leader whose last successful try is more than ttl ago. */
  predicate Overdue(w: World, p: Pod, ttl: int) {
    Leads(w, p) && w.now > w.pods[p].lastOk + ttl
  }

  ghost predicate HeldByLeader(w: World, ttl: int) {
    && (w.lease.Some? ==> w.lease.value.renewed <= w.now)
    && forall p :: Leads(w, p) && !Overdue(w, p, ttl) ==>
                     w.lease.Some? && w.lease.value.holder == p && w.pods[p].lastOk <= w.lease.value.renewed
  }

  /** The atomic step, as the other form of the whole try used in the loop. */
  lemma TryIsTick(w: World, p: Pod, at: int, readOk: bool, reply: Reply, ttl: int)
    requires Enabled(w, Try(p, at, readOk, reply))
    ensures var v := Apply(w, Try(p, at, readOk, reply), ttl);
            var o := Attempt(w.lease, p, at, ttl, readOk, reply);
            v.lease == o.lease && v.pods[p].leading == RoleAfter(w.pods[p].leading, o.verdict)
            && (forall q :: q in w.pods && q != p ==> q in v.pods && v.pods[q] == w.pods[q])
            && v == Apply(Apply(w, Begin(p, at, readOk), ttl), End(p, at, reply), ttl)
  {
    var b := Apply(w, Begin(p, at, readOk), ttl);
    var plan := if readOk then Decide(w.lease, p, at, ttl) else Broken;
    assert b.pods[p].plan == Some(plan);
    assert Apply(b, End(p, at, reply), ttl).pods == Apply(w, Try(p, at, readOk, reply), ttl).pods;
  }

  lemma StepKeepsHolder(w: World, e: Event, ttl: int)
    requires HeldByLeader(w, ttl) && Enabled(w, e) && (e.Try? || e.Quit?)
    ensures HeldByLeader(Apply(w, e, ttl), ttl)
  {
    var v := Apply(w, e, ttl);
    forall p | Leads(v, p) && !Overdue(v, p, ttl)
      ensures v.lease.Some? && v.lease.value.holder == p && v.pods[p].lastOk <= v.lease.value.renewed
    {
      if p != e.pod {
        assert Leads(w, p) && !Overdue(w, p, ttl);
      } else if Leads(w, p) && v.pods[p].lastOk == w.pods[p].lastOk {
        assert !Overdue(w, p, ttl);
      }
    }
  }

  // ----- tries in two halves

  predicate IsWrite(plan: Plan) {
    plan.Create? || plan.Renew? || plan.TakeOver?
  }

  /** A write is planned in the past, and after the last success of its pod. */
  ghost predicate Orderly(w: World) {
    forall p :: p in w.pods ==>
      var s := w.pods[p];
      && (s.leading ==> s.lastOk <= w.now)
      && (s.plan.Some? && IsWrite(s.plan.value) ==>
            s.plan.value.at <= w.now && (s.leading ==> s.lastOk <= s.plan.value.at))
  }

  /** A patch that takes effect, and finds another pod's lease. A create never does. */
  predicate OverwritesOther(w: World, e: Event)
    requires Enabled(w, e)
  {
    && e.End? && e.reply != Fails && w.lease.Some? && w.lease.value.holder != e.pod
    && (w.pods[e.pod].plan.value.Renew? || w.pods[e.pod].plan.value.TakeOver?)
  }

  /** It finds the lease of a leader that is not overdue. */
  predicate Steals(w: World, e: Event, ttl: int)
    requires Enabled(w, e)
  {
    && OverwritesOther(w, e)
    && Leads(w, w.lease.value.holder) && e.at <= w.pods[w.lease.value.holder].lastOk + ttl
  }

  /** What can be seen at the API server: the lease had not expired when the write was planned,
      or the write was planned as a renewal. */
  predicate TakesUnexpired(w: World, e: Event, ttl: int)
    requires Enabled(w, e)
  {
    && OverwritesOther(w, e)
    && (w.pods[e.pod].plan.value.Renew? || w.pods[e.pod].plan.value.at - w.lease.value.renewed <= ttl)
  }

  /** The write is still the one that reading the object now would lead to. A resourceVersion
      on the patch would enforce this. */
  predicate StaleWrite(w: World, e: Event, ttl: int)
    requires Enabled(w, e)
  {
    && e.End? && e.reply != Fails
    && (w.pods[e.pod].plan.value.Renew? || w.pods[e.pod].plan.value.TakeOver?)
    && w.pods[e.pod].plan.value != Decide(w.lease, e.pod, w.pods[e.pod].plan.value.at, ttl)
  }

  lemma TakingIsStale(w: World, e: Event, ttl: int)
    requires Enabled(w, e)
    ensures TakesUnexpired(w, e, ttl) ==> StaleWrite(w, e, ttl)
  {}

  lemma StealingIsTaking(w: World, e: Event, ttl: int)
    requires Orderly(w) && HeldByLeader(w, ttl) && Enabled(w, e)
    ensures Steals(w, e, ttl) ==> TakesUnexpired(w, e, ttl)
  {
    if Steals(w, e, ttl) {
      assert !Overdue(w, w.lease.value.holder, ttl);
    }
  }

  lemma StepKeepsOrder(w: World, e: Event, ttl: int)
    requires Orderly(w) && Enabled(w, e)
    ensures Orderly(Apply(w, e, ttl))
  {}

  /** The step at which a timely leader stops being the stored holder is exactly a step that
      steals the lease from it. */
  lemma HolderLostExactlyByStealing(w: World, e: Event, ttl: int)
    requires Orderly(w) && HeldByLeader(w, ttl) && Enabled(w, e)
    ensures HeldByLeader(Apply(w, e, ttl), ttl) <==> !Steals(w, e, ttl)
  {
    var v := Apply(w, e, ttl);
    if Steals(w, e, ttl) {
      var h := w.lease.value.holder;
      assert Leads(v, h) && !Overdue(v, h, ttl) && v.lease.value.holder != h;
    } else if e.Try? || e.Quit? {
      StepKeepsHolder(w, e, ttl);
    } else {
      forall p | Leads(v, p) && !Overdue(v, p, ttl)
        ensures v.lease.Some? && v.lease.value.holder == p && v.pods[p].lastOk <= v.lease.value.renewed
      {
        if p != e.pod || (Leads(w, p) && v.pods[p].lastOk == w.pods[p].lastOk) {
          assert Leads(w, p) && !Overdue(w, p, ttl);
        }
      }
    }
  }

  ghost predicate NothingTaken(worlds: seq<World>, events: seq<Event>, ttl: int, n: nat)
    requires IsRun(worlds, events, ttl) && n <= |events|
  {
    forall i :: 0 <= i < n ==> !TakesUnexpired(worlds[i], events[i], ttl)
  }

  lemma {:induction false} ReachableOrderly(worlds: seq<World>, events: seq<Event>, ttl: int, n: nat)
    requires IsRun(worlds, events, ttl) && n < |worlds|
    ensures Orderly(worlds[n])
  {
    if n > 0 {
      ReachableOrderly(worlds, events, ttl, n - 1);
      StepKeepsOrder(worlds[n - 1], events[n - 1], ttl);
    }
  }

  lemma {:induction false} ReachableHolder(worlds: seq<World>, events: seq<Event>, ttl: int, n: nat)
    requires IsRun(worlds, events, ttl) && n < |worlds| && NothingTaken(worlds, events, ttl, n)
    ensures HeldByLeader(worlds[n], ttl)
  {
    if n > 0 {
      ReachableHolder(worlds, events, ttl, n - 1);
      ReachableOrderly(worlds, events, ttl, n - 1);
      hide HeldByLeader, Orderly;
      StealingIsTaking(worlds[n - 1], events[n - 1], ttl);
      HolderLostExactlyByStealing(worlds[n - 1], events[n - 1], ttl);
    }
  }

  /** Over whole runs of tries in two halves: timely leaders are the stored holder all the way
      if and only if no write has stolen the lease. */
  lemma {:induction false} HolderKeptExactlyWithoutStealing(worlds: seq<World>, events: seq<Event>, ttl: int, n: nat)
    requires IsRun(worlds, events, ttl) && n < |worlds|
    ensures (forall i :: 0 <= i <= n ==> HeldByLeader(worlds[i], ttl))
            <==> forall i :: 0 <= i < n ==> !Steals(worlds[i], events[i], ttl)
  {
    if n > 0 {
      HolderKeptExactlyWithoutStealing(worlds, events, ttl, n - 1);
      ReachableOrderly(worlds, events, ttl, n - 1);
      hide HeldByLeader, Orderly, Steals;
      if forall i :: 0 <= i <= n - 1 ==> HeldByLeader(worlds[i], ttl) {
        HolderLostExactlyByStealing(worlds[n - 1], events[n - 1], ttl);
      }
      assert (forall i :: 0 <= i <= n ==> HeldByLeader(worlds[i], ttl))
             <==> (forall i :: 0 <= i <= n - 1 ==> HeldByLeader(worlds[i], ttl)) && HeldByLeader(worlds[n], ttl);
      assert (forall i :: 0 <= i < n ==> !Steals(worlds[i], events[i], ttl))
             <==> (forall i :: 0 <= i < n - 1 ==> !Steals(worlds[i], events[i], ttl))
                  && !Steals(worlds[n - 1], events[n - 1], ttl);
    }
  }

  /** With every patch protected by a resourceVersion, nothing unexpired is ever taken ... */
  lemma FreshWritesTakeNothing(worlds: seq<World>, events: seq<Event>, ttl: int, n: nat)
    requires IsRun(worlds, events, ttl) && n <= |events|
    requires forall i :: 0 <= i < n ==> !StaleWrite(worlds[i], events[i], ttl)
    ensures NothingTaken(worlds, events, ttl, n)
  {
    forall i | 0 <= i < n ensures !TakesUnexpired(worlds[i], events[i], ttl) {
      TakingIsStale(worlds[i], events[i], ttl);
    }
  }

  /** ... nor is it if nothing comes between a read and its write. */
  lemma AtomicTriesTakeNothing(worlds: seq<World>, events: seq<Event>, ttl: int, n: nat)
    requires IsRun(worlds, events, ttl) && Atomic(events) && n <= |events|
    ensures NothingTaken(worlds, events, ttl, n)
  {
    assert forall i :: 0 <= i < n ==> !events[i].End?;
  }

  /** As long as no patch takes an unexpired lease from another pod, whatever fails: two pods
      can lead at once only while one of them has had no successful try for more than ttl. */
  lemma OverlapMeansOverdue(worlds: seq<World>, events: seq<Event>, ttl: int, n: nat, p: Pod, q: Pod)
    requires IsRun(worlds, events, ttl) && n < |worlds| && NothingTaken(worlds, events, ttl, n)
    requires p != q && Leads(worlds[n], p) && Leads(worlds[n], q)
    ensures Overdue(worlds[n], p, ttl) || Overdue(worlds[n], q, ttl)
  {
    ReachableHolder(worlds, events, ttl, n);
  }

  /** So if no leader is overdue, at most one pod leads, and the stored holder is that pod. */
  lemma TimelyLeadersAreUnique(worlds: seq<World>, events: seq<Event>, ttl: int, n: nat)
    requires IsRun(worlds, events, ttl) && n < |worlds| && NothingTaken(worlds, events, ttl, n)
    requires forall p :: !Overdue(worlds[n], p, ttl)
    ensures forall p, q :: Leads(worlds[n], p) && Leads(worlds[n], q) ==> p == q
    ensures forall p :: Leads(worlds[n], p) ==>
                          worlds[n].lease.Some? && worlds[n].lease.value.holder == p
  {
    ReachableHolder(worlds, events, ttl, n);
    forall p | Leads(worlds[n], p)
      ensures worlds[n].lease.Some? && worlds[n].lease.value.holder == p
    {
      assert !Overdue(worlds[n], p, ttl);
    }
  }

  /** Whatever the past, a try that does not end in an error leaves its pod leading only if
      the stored holder is that pod: a wrong leader steps down at its first clean try. */
  lemma CleanTrySettlesRole(w: World, p: Pod, at: int, readOk: bool, reply: Reply, ttl: int)
    requires Enabled(w, Try(p, at, readOk, reply))
    requires Attempt(w.lease, p, at, ttl, readOk, reply).verdict != Error
    ensures var v := Apply(w, Try(p, at, readOk, reply), ttl);
            Leads(v, p) ==>
              v.lease.Some? && v.lease.value.holder == p && v.lease.value.renewed == at == v.pods[p].lastOk
    ensures var v := Apply(w, Try(p, at, readOk, reply), ttl);
            Leads(v, p) <==> reply == Succeeds
                             && (w.lease == None || w.lease.value.holder == p || at - w.lease.value.renewed > ttl)
  {
  }

  /** When a try ends in an error, exactly; and then the pod keeps its role. */
  lemma ErrorKeepsRole(w: World, p: Pod, at: int, readOk: bool, reply: Reply, ttl: int)
    requires Enabled(w, Try(p, at, readOk, reply))
    ensures Attempt(w.lease, p, at, ttl, readOk, reply).verdict == Error
            <==> !readOk || (reply != Succeeds && (w.lease == None || w.lease.value.holder == p))
    ensures !readOk || (reply != Succeeds && (w.lease == None || w.lease.value.holder == p)) ==>
              (Leads(Apply(w, Try(p, at, readOk, reply), ttl), p) <==> Leads(w, p))
  {}

  // ----- counting the take-overs

  /** How often the stored holder has changed from one pod to another. */
  ghost function HolderChanges(worlds: seq<World>, n: nat): nat
    requires n < |worlds|
  {
    if n == 0 then 0 else HolderChanges(worlds, n - 1) + (if Changes(worlds[n - 1], worlds[n]) then 1 else 0)
  }

  ghost predicate Changes(w: World, v: World) {
    w.lease.Some? && v.lease.Some? && v.lease.value.holder != w.lease.value.holder
  }

  /** A pending take-over is from another pod, and counts one more change than there was. */
  ghost predicate CountsAtMost(w: World, changes: nat) {
    && (w.lease.Some? ==> w.lease.value.transitions <= changes)
    && forall p :: p in w.pods && w.pods[p].plan.Some? && w.pods[p].plan.value.TakeOver? ==>
         w.lease.Some? && w.lease.value.holder != p && w.pods[p].plan.value.transitions <= changes + 1
  }

  lemma StepCountsAtMost(w: World, e: Event, ttl: int, changes: nat)
    requires Enabled(w, e) && CountsAtMost(w, changes)
    ensures CountsAtMost(Apply(w, e, ttl), changes + (if Changes(w, Apply(w, e, ttl)) then 1 else 0))
  {}

  lemma StepCounts(w: World, e: Event, ttl: int)
    requires Enabled(w, e) && !StaleWrite(w, e, ttl)
    ensures var v := Apply(w, e, ttl);
            v.lease.Some? ==>
              v.lease.value.transitions
                == if w.lease.None? then 0 else w.lease.value.transitions + (if Changes(w, v) then 1 else 0)
  {}

  lemma StaysStored(w: World, e: Event, ttl: int)
    requires Enabled(w, e) && w.lease.Some?
    ensures Apply(w, e, ttl).lease.Some?
  {}

  lemma {:induction false} NoChangeBeforeTheFirst(worlds: seq<World>, events: seq<Event>, ttl: int, n: nat)
    requires IsRun(worlds, events, ttl) && n < |worlds| && worlds[n].lease.None?
    ensures HolderChanges(worlds, n) == 0
  {
    if n > 0 {
      hide Apply, Enabled;
      if worlds[n - 1].lease.Some? {
        StaysStored(worlds[n - 1], events[n - 1], ttl);
      }
      NoChangeBeforeTheFirst(worlds, events, ttl, n - 1);
    }
  }

  /** leaseTransitions never exceeds the number of times the holder has changed; and as long
      as no write is stale it is that number: one more at every take-over, the same at every
      renewal. */
  lemma {:induction false} TransitionsCountTakeOvers(worlds: seq<World>, events: seq<Event>, ttl: int, n: nat)
    requires IsRun(worlds, events, ttl) && n < |worlds|
    ensures CountsAtMost(worlds[n], HolderChanges(worlds, n))
    ensures worlds[n].lease.Some? ==> worlds[n].lease.value.transitions <= HolderChanges(worlds, n)
    ensures worlds[n].lease.Some? && (forall i :: 0 <= i < n ==> !StaleWrite(worlds[i], events[i], ttl)) ==>
              worlds[n].lease.value.transitions == HolderChanges(worlds, n)
  {
    if n > 0 {
      TransitionsCountTakeOvers(worlds, events, ttl, n - 1);
      hide Apply, Enabled, StaleWrite;
      StepCountsAtMost(worlds[n - 1], events[n - 1], ttl, HolderChanges(worlds, n - 1));
      if worlds[n - 1].lease.None? {
        NoChangeBeforeTheFirst(worlds, events, ttl, n - 1);
      }
      if !StaleWrite(worlds[n - 1], events[n - 1], ttl) {
        StepCounts(worlds[n - 1], events[n - 1], ttl);
      }
    }
  }

  // ----- the hypotheses are needed

  const IDLE := PodState(false, 0, None)

  function Ready(t: int): PodState {
    PodState(false, 0, Some(TakeOver(t, 1)))
  }

  function Leading(t: int): PodState {
    PodState(true, t, None)
  }

  function Scene(now: int, lease: Option<Stored>, a: PodState, b: PodState, c: PodState): World {
    World(now, lease, map["a" := a, "b" := b, "c" := c])
  }

  /** c takes the lease and quits, and when the lease has expired a and b both read it. */
  lemma TwoReadAnExpiredLease(t: int, ttl: int)
    requires t == ttl + 1 && ttl > 0
    ensures var l := Some(Stored("c", 0, 0));
            var w0, w1, w2, w3 := Scene(0, None, IDLE, IDLE, IDLE), Scene(0, l, IDLE, IDLE, Leading(0)),
                                  Scene(0, l, IDLE, IDLE, IDLE), Scene(t, l, Ready(t), IDLE, IDLE);
            && Enabled(w0, Try("c", 0, true, Succeeds)) && Apply(w0, Try("c", 0, true, Succeeds), ttl) == w1
            && Enabled(w1, Quit("c", 0)) && Apply(w1, Quit("c", 0), ttl) == w2
            && Enabled(w2, Begin("a", t, true)) && Apply(w2, Begin("a", t, true), ttl) == w3
            && Enabled(w3, Begin("b", t, true))
            && Apply(w3, Begin("b", t, true), ttl) == Scene(t, l, Ready(t), Ready(t), IDLE)
  {}

  /** Both write: the first one finds the expired lease, the second one that of the first. */
  lemma BothWrite(t: int, ttl: int)
    requires t == ttl + 1 && ttl > 0
    ensures var w4, w5 := Scene(t, Some(Stored("c", 0, 0)), Ready(t), Ready(t), IDLE),
                          Scene(t, Some(Stored("a", t, 1)), Leading(t), Ready(t), IDLE);
            && Enabled(w4, End("a", t, Succeeds)) && Apply(w4, End("a", t, Succeeds), ttl) == w5
            && !StaleWrite(w4, End("a", t, Succeeds), ttl) && !TakesUnexpired(w4, End("a", t, Succeeds), ttl)
            && Enabled(w5, End("b", t, Succeeds))
            && Apply(w5, End("b", t, Succeeds), ttl) == Scene(t, Some(Stored("b", t, 1)), Leading(t), Leading(t), IDLE)
            && TakesUnexpired(w5, End("b", t, Succeeds), ttl)
  {}

  /** Two pods that both read the expired lease both take it over, and neither is overdue. The
      last write, and only that one, is stale and takes an unexpired lease. */
  lemma TwoTakeOvers(ttl: int) returns (worlds: seq<World>, events: seq<Event>)
    requires ttl > 0
    ensures IsRun(worlds, events, ttl) && |worlds| > 0
    ensures var w := worlds[|worlds| - 1]; Leads(w, "a") && Leads(w, "b")
    ensures forall i, p :: 0 <= i < |worlds| && p != "c" ==> !Overdue(worlds[i], p, ttl)
    ensures NothingTaken(worlds, events, ttl, |events| - 1)
    ensures forall i :: 0 <= i < |events| - 1 ==> !StaleWrite(worlds[i], events[i], ttl)
    ensures TakesUnexpired(worlds[|events| - 1], events[|events| - 1], ttl)
  {
    var t, l := ttl + 1, Some(Stored("c", 0, 0));
    worlds := [Scene(0, None, IDLE, IDLE, IDLE), Scene(0, l, IDLE, IDLE, Leading(0)), Scene(0, l, IDLE, IDLE, IDLE),
               Scene(t, l, Ready(t), IDLE, IDLE), Scene(t, l, Ready(t), Ready(t), IDLE),
               Scene(t, Some(Stored("a", t, 1)), Leading(t), Ready(t), IDLE),
               Scene(t, Some(Stored("b", t, 1)), Leading(t), Leading(t), IDLE)];
    events := [Try("c", 0, true, Succeeds), Quit("c", 0), Begin("a", t, true), Begin("b", t, true),
               End("a", t, Succeeds), End("b", t, Succeeds)];
    TwoReadAnExpiredLease(t, ttl);
    BothWrite(t, ttl);
    hide Apply, Enabled, TakesUnexpired, StaleWrite;
    forall i | 0 <= i < 4 ensures !TakesUnexpired(worlds[i], events[i], ttl) && !StaleWrite(worlds[i], events[i], ttl) {
      OnlyEndsWrite(worlds[i], events[i], ttl);
    }
  }

  lemma OnlyEndsWrite(w: World, e: Event, ttl: int)
    requires Enabled(w, e) && !e.End?
    ensures !TakesUnexpired(w, e, ttl) && !StaleWrite(w, e, ttl)
  {}

  /** The timing hypothesis is needed. An error keeps the role, so a leader that is cut off
      stays leader while another pod takes over the expired lease, all tries being atomic. */
  lemma ErrorsKeepAnOldLeader(ttl: int) returns (worlds: seq<World>, events: seq<Event>)
    requires ttl > 0
    ensures IsRun(worlds, events, ttl) && Atomic(events) && |worlds| > 0
    ensures var w := worlds[|worlds| - 1]; Leads(w, "a") && Leads(w, "b") && Overdue(w, "a", ttl)
  {
    var idle := PodState(false, 0, None);
    var t := ttl + 1;
    var w0 := World(0, None, map["a" := idle, "b" := idle]);
    var w1 := Apply(w0, Try("a", 0, true, Succeeds), ttl);
    var w2 := Apply(w1, Try("a", t, false, Fails), ttl);
    var w3 := Apply(w2, Try("b", t, true, Succeeds), ttl);
    worlds := [w0, w1, w2, w3];
    events := [Try("a", 0, true, Succeeds), Try("a", t, false, Fails), Try("b", t, true, Succeeds)];
  }
}
