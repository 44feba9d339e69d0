/**
  Leader election over one etcd key (internal/controller/leader.go): grant a lease, create
  the key under it if absent, keep the lease alive while `fn` runs, revoke on the way out.

  etcd and the processes are one transition system. Every call may fail, a call may take
  effect and still report failure, and a lease may expire at any moment: no timing is
  assumed. Candidate processes are named by numbers; `id` maps them to the identities they
  write (host/pid), which need not be distinct.
 */
module EtcdElection {
  import opened Common

  type Proc = nat
  type Lease = nat

  /** Where a process is in tryBecomeLeader. */
  datatype Pc =
    | Idle                            // at the top of the election loop
    | Granted(lease: Lease)           // lease granted, txn not sent yet
    | Won(lease: Lease)               // txn succeeded, keep-alive not started yet
    | Leading(lease: Lease)           // fn runs, in the monitoring select
    | Stopping(lease: Lease, revoke: bool)  // fn cancelled but still running
    | Revoking(lease: Lease, follow: bool)  // fn not running, about to revoke
    | Following                       // watching the key
    | Standalone                      // no etcd configured: fn runs without election

  datatype Holder = Holder(identity: string, lease: Lease)

  datatype World = World(nextLease: Lease, alive: set<Lease>, key: Option<Holder>, pcs: map<Proc, Pc>)

  datatype Event =
    | GrantOk(p: Proc) | GrantLost(p: Proc)           // GrantLost: granted, but the reply is an error
    | TxnOk(p: Proc) | TxnLost(p: Proc) | TxnFails(p: Proc)
    | KeepAliveOk(p: Proc) | KeepAliveFails(p: Proc)
    | KeepAliveEnds(p: Proc) | FnReturns(p: Proc) | Cancelled(p: Proc)
    | RevokeOk(p: Proc) | RevokeFails(p: Proc)
    | WatchEnds(p: Proc)
    | RunAlone(p: Proc)
    | Expire(lease: Lease)

  function Drop(w: World, l: Lease): World {
    w.(alive := w.alive - {l}, key := if w.key.Some? && w.key.value.lease == l then None else w.key)
  }

  function Goto(w: World, p: Proc, pc: Pc): World {
    w.(pcs := w.pcs[p := pc])
  }

  /** The server side of the create-if-absent transaction. A put under a dead lease is an
      error, so it creates nothing. */
  function CreateIfAbsent(w: World, identity: string, l: Lease): World {
    if w.key == None && l in w.alive then w.(key := Some(Holder(identity, l))) else w
  }

  predicate Enabled(w: World, e: Event) {
    match e
    case Expire(l) => l in w.alive
    case GrantOk(p) => p in w.pcs && w.pcs[p] == Idle
    case GrantLost(p) => p in w.pcs && w.pcs[p] == Idle
    case TxnOk(p) => p in w.pcs && w.pcs[p].Granted? && (w.key != None || w.pcs[p].lease in w.alive)
    case TxnLost(p) => p in w.pcs && w.pcs[p].Granted?
    case TxnFails(p) => p in w.pcs && w.pcs[p].Granted?
    case KeepAliveOk(p) => p in w.pcs && w.pcs[p].Won?
    case KeepAliveFails(p) => p in w.pcs && w.pcs[p].Won?
    case KeepAliveEnds(p) => p in w.pcs && w.pcs[p].Leading?
    case Cancelled(p) => p in w.pcs && w.pcs[p].Leading?
    case FnReturns(p) => p in w.pcs && (w.pcs[p].Leading? || w.pcs[p].Stopping?)
    case RevokeOk(p) => p in w.pcs && w.pcs[p].Revoking?
    case RevokeFails(p) => p in w.pcs && w.pcs[p].Revoking?
    case WatchEnds(p) => p in w.pcs && w.pcs[p] == Following
    case RunAlone(p) => p in w.pcs && w.pcs[p] == Idle
  }

  function AfterRevoke(pc: Pc): Pc
    requires pc.Revoking?
  {
    if pc.follow then Following else Idle
  }

  function Apply(w: World, e: Event, id: Proc -> string): World
    requires Enabled(w, e)
  {
    match e
    case Expire(l) => Drop(w, l)
    case GrantOk(p) =>
      Goto(w.(nextLease := w.nextLease + 1, alive := w.alive + {w.nextLease}), p, Granted(w.nextLease))
    case GrantLost(p) => w.(nextLease := w.nextLease + 1, alive := w.alive + {w.nextLease})
    case TxnOk(p) =>
      var l := w.pcs[p].lease;
      if w.key == None then Goto(CreateIfAbsent(w, id(p), l), p, Won(l)) else Goto(w, p, Revoking(l, true))
    case TxnLost(p) => Goto(CreateIfAbsent(w, id(p), w.pcs[p].lease), p, Revoking(w.pcs[p].lease, false))
    case TxnFails(p) => Goto(w, p, Revoking(w.pcs[p].lease, false))
    case KeepAliveOk(p) => Goto(w, p, Leading(w.pcs[p].lease))
    case KeepAliveFails(p) => Goto(w, p, Revoking(w.pcs[p].lease, false))
    case KeepAliveEnds(p) => Goto(w, p, Stopping(w.pcs[p].lease, false))
    case Cancelled(p) => Goto(w, p, Stopping(w.pcs[p].lease, true))
    case FnReturns(p) =>
      var pc := w.pcs[p];
      if pc.Leading? || pc.revoke then Goto(w, p, Revoking(pc.lease, false)) else Goto(w, p, Idle)
    case RevokeOk(p) => Goto(Drop(w, w.pcs[p].lease), p, AfterRevoke(w.pcs[p]))
    case RevokeFails(p) => Goto(w, p, AfterRevoke(w.pcs[p]))
    case WatchEnds(p) => Goto(w, p, Idle)
    case RunAlone(p) => Goto(w, p, Standalone)
  }

  ghost predicate Start(w: World) {
    w.nextLease == 0 && w.alive == {} && w.key == None && forall p :: p in w.pcs ==> w.pcs[p] == Idle
  }

  ghost predicate IsRun(worlds: seq<World>, events: seq<Event>, id: Proc -> string) {
    && |worlds| == |events| + 1
    && Start(worlds[0])
    && forall i :: 0 <= i < |events| ==>
                     Enabled(worlds[i], events[i]) && worlds[i + 1] == Apply(worlds[i], events[i], id)
  }

  predicate HasLease(pc: Pc) {
    pc.Granted? || pc.Won? || pc.Leading? || pc.Stopping? || pc.Revoking?
  }

  /** Elected, and not yet back from fn. */
  predicate Elected(pc: Pc) {
    pc.Won? || pc.Leading? || pc.Stopping?
  }

  predicate RunsFn(pc: Pc) {
    pc.Leading? || pc.Stopping? || pc.Standalone?
  }

  /** Elected under a lease that has not expired. */
  predicate HoldsLiveLease(w: World, p: Proc) {
    p in w.pcs && Elected(w.pcs[p]) && w.pcs[p].lease in w.alive
  }

  ghost predicate Safe(w: World, id: Proc -> string) {
    && (forall l :: l in w.alive ==> l < w.nextLease)
    && (forall p :: p in w.pcs && HasLease(w.pcs[p]) ==> w.pcs[p].lease < w.nextLease)
    && (forall p, q :: p in w.pcs && q in w.pcs && p != q && HasLease(w.pcs[p]) && HasLease(w.pcs[q])
                       ==> w.pcs[p].lease != w.pcs[q].lease)
    && (w.key.Some? ==> w.key.value.lease in w.alive)
    && (w.key.Some? ==> forall p :: p in w.pcs && w.pcs[p].Granted? ==> w.pcs[p].lease != w.key.value.lease)
    && (forall p :: HoldsLiveLease(w, p) ==> w.key == Some(Holder(id(p), w.pcs[p].lease)))
  }

  lemma DropKeepsSafe(w: World, l: Lease, id: Proc -> string)
    requires Safe(w, id)
    ensures Safe(Drop(w, l), id)
  {
    forall p | HoldsLiveLease(Drop(w, l), p)
      ensures Drop(w, l).key == Some(Holder(id(p), w.pcs[p].lease))
    {
      assert HoldsLiveLease(w, p);
    }
  }

  lemma FreshLeaseKeepsSafe(w: World, id: Proc -> string)
    requires Safe(w, id)
    ensures Safe(w.(nextLease := w.nextLease + 1, alive := w.alive + {w.nextLease}), id)
  {
    var v := w.(nextLease := w.nextLease + 1, alive := w.alive + {w.nextLease});
    forall p | HoldsLiveLease(v, p) ensures v.key == Some(Holder(id(p), v.pcs[p].lease)) {
      assert HoldsLiveLease(w, p);
    }
  }

  /** A process may move on with the lease it has, or without one, but it may call itself
      elected only if the key says so. */
  lemma GotoKeepsSafe(w: World, p: Proc, pc: Pc, id: Proc -> string)
    requires Safe(w, id) && p in w.pcs
    requires HasLease(pc) ==> HasLease(w.pcs[p]) && pc.lease == w.pcs[p].lease && !pc.Granted?
    requires Elected(pc) && pc.lease in w.alive ==> w.key == Some(Holder(id(p), pc.lease))
    ensures Safe(Goto(w, p, pc), id)
  {
    var v := Goto(w, p, pc);
    forall q | HoldsLiveLease(v, q) ensures v.key == Some(Holder(id(q), v.pcs[q].lease)) {
      assert q != p ==> HoldsLiveLease(w, q);
    }
  }

  lemma NewlyGrantedKeepsSafe(w: World, p: Proc, id: Proc -> string)
    requires Safe(w, id) && p in w.pcs && w.pcs[p] == Idle
    ensures Safe(Apply(w, GrantOk(p), id), id)
  {
    var v := Apply(w, GrantOk(p), id);
    forall q | HoldsLiveLease(v, q) ensures v.key == Some(Holder(id(q), v.pcs[q].lease)) {
      assert HoldsLiveLease(w, q);
    }
  }

  /** Creating the key for a granted lease that then stops being merely granted. */
  lemma CreateKeepsSafe(w: World, p: Proc, pc: Pc, id: Proc -> string)
    requires Safe(w, id) && p in w.pcs && w.pcs[p].Granted? && (pc.Won? || pc.Revoking?) && pc.lease == w.pcs[p].lease
    requires pc.Won? ==> w.key == None && pc.lease in w.alive
    ensures Safe(Goto(CreateIfAbsent(w, id(p), w.pcs[p].lease), p, pc), id)
  {
    var v := Goto(CreateIfAbsent(w, id(p), w.pcs[p].lease), p, pc);
    forall q | HoldsLiveLease(v, q) ensures v.key == Some(Holder(id(q), v.pcs[q].lease)) {
      assert q != p ==> HoldsLiveLease(w, q);
    }
  }

  lemma StepKeepsSafe(w: World, e: Event, id: Proc -> string)
    requires Safe(w, id) && Enabled(w, e)
    ensures Safe(Apply(w, e, id), id)
  {
    hide Safe;
    match e
    case Expire(l) => DropKeepsSafe(w, l, id);
    case GrantOk(p) => NewlyGrantedKeepsSafe(w, p, id);
    case GrantLost(_) => FreshLeaseKeepsSafe(w, id);
    case TxnOk(p) =>
      if w.key == None {
        CreateKeepsSafe(w, p, Won(w.pcs[p].lease), id);
      } else {
        GotoKeepsSafe(w, p, Revoking(w.pcs[p].lease, true), id);
      }
    case TxnLost(p) => CreateKeepsSafe(w, p, Revoking(w.pcs[p].lease, false), id);
    case RevokeOk(p) =>
      DropKeepsSafe(w, w.pcs[p].lease, id);
      GotoKeepsSafe(Drop(w, w.pcs[p].lease), p, AfterRevoke(w.pcs[p]), id);
    case _ => SameServerStep(w, e, id);
  }

  /** The remaining events change only where the process is. */
  lemma SameServerStep(w: World, e: Event, id: Proc -> string)
    requires Safe(w, id) && Enabled(w, e)
    requires !e.Expire? && !e.GrantOk? && !e.GrantLost? && !e.TxnOk? && !e.TxnLost? && !e.RevokeOk?
    ensures Safe(Apply(w, e, id), id)
  {
    var v := Apply(w, e, id);
    assert HoldsLiveLease(w, e.p) ==> w.key == Some(Holder(id(e.p), w.pcs[e.p].lease));
    GotoKeepsSafe(w, e.p, v.pcs[e.p], id);
  }

  lemma {:induction false} ReachableSafe(worlds: seq<World>, events: seq<Event>, id: Proc -> string, n: nat)
    requires IsRun(worlds, events, id) && n < |worlds|
    ensures Safe(worlds[n], id)
  {
    if n > 0 {
      ReachableSafe(worlds, events, id, n - 1);
      hide Safe, Apply, Enabled;
      StepKeepsSafe(worlds[n - 1], events[n - 1], id);
    }
  }

  /** In every interleaving at most one process is elected under an unexpired lease, and
      while one is, the key holds its identity under exactly that lease. */
  lemma AtMostOneLiveLeader(worlds: seq<World>, events: seq<Event>, id: Proc -> string, n: nat)
    requires IsRun(worlds, events, id) && n < |worlds|
    ensures forall p, q :: HoldsLiveLease(worlds[n], p) && HoldsLiveLease(worlds[n], q) ==> p == q
    ensures forall p :: HoldsLiveLease(worlds[n], p) ==>
                          worlds[n].key == Some(Holder(id(p), worlds[n].pcs[p].lease))
  {
    ReachableSafe(worlds, events, id, n);
  }

  /** A lease that is gone never comes back: a deposed leader cannot become live again by
      itself. */
  lemma {:induction false} DeadLeasesStayDead(worlds: seq<World>, events: seq<Event>, id: Proc -> string,
                                              m: nat, n: nat, l: Lease)
    requires IsRun(worlds, events, id) && m <= n < |worlds|
    requires l < worlds[m].nextLease && l !in worlds[m].alive
    ensures l !in worlds[n].alive && l < worlds[n].nextLease
  {
    if m < n {
      DeadLeasesStayDead(worlds, events, id, m, n - 1, l);
    }
  }

  lemma {:induction false} LeaseNumbersGrow(worlds: seq<World>, events: seq<Event>, id: Proc -> string, m: nat, n: nat)
    requires IsRun(worlds, events, id) && m <= n < |worlds|
    ensures worlds[m].nextLease <= worlds[n].nextLease
  {
    if m < n {
      LeaseNumbersGrow(worlds, events, id, m, n - 1);
    }
  }

  /** Hand-over: between two different live leaders the first one's lease ended, for good. */
  lemma HandOverNeedsEndOfLease(worlds: seq<World>, events: seq<Event>, id: Proc -> string,
                                m: nat, n: nat, p: Proc, q: Proc)
    requires IsRun(worlds, events, id) && m < n < |worlds| && p != q
    requires HoldsLiveLease(worlds[m], p) && HoldsLiveLease(worlds[n], q)
    ensures forall k :: n <= k < |worlds| ==> worlds[m].pcs[p].lease !in worlds[k].alive
  {
    var l := worlds[m].pcs[p].lease;
    ReachableSafe(worlds, events, id, m);
    ReachableSafe(worlds, events, id, n);
    if l in worlds[n].alive {
      KeyMovesOnlyWhenLeaseEnds(worlds, events, id, m, n, p);
      LeaseStaysWithItsProcess(worlds, events, id, m, n, p, q);
    }
    LeaseNumbersGrow(worlds, events, id, m, n);
    forall k | n <= k < |worlds| ensures l !in worlds[k].alive {
      DeadLeasesStayDead(worlds, events, id, n, k, l);
    }
  }

  lemma AliveBefore(w: World, e: Event, id: Proc -> string, l: Lease)
    requires Enabled(w, e) && l < w.nextLease && l in Apply(w, e, id).alive
    ensures l in w.alive
  {}

  lemma KeyStaysWithLease(w: World, e: Event, id: Proc -> string)
    requires Enabled(w, e) && w.key.Some? && w.key.value.lease in Apply(w, e, id).alive
    ensures Apply(w, e, id).key == w.key
  {}

  lemma {:induction false} KeyMovesOnlyWhenLeaseEnds(worlds: seq<World>, events: seq<Event>, id: Proc -> string,
                                                     m: nat, n: nat, p: Proc)
    requires IsRun(worlds, events, id) && m <= n < |worlds|
    requires HoldsLiveLease(worlds[m], p) && worlds[m].pcs[p].lease in worlds[n].alive
    ensures worlds[n].key == worlds[m].key
  {
    ReachableSafe(worlds, events, id, m);
    if m < n {
      LeaseNumbersGrow(worlds, events, id, m, n - 1);
      AliveBefore(worlds[n - 1], events[n - 1], id, worlds[m].pcs[p].lease);
      KeyMovesOnlyWhenLeaseEnds(worlds, events, id, m, n - 1, p);
      hide Apply, Enabled, Safe;
      KeyStaysWithLease(worlds[n - 1], events[n - 1], id);
    }
  }

  /** Leases are never shared: what p held, no other process ever holds. */
  lemma {:induction false} LeaseStaysWithItsProcess(worlds: seq<World>, events: seq<Event>, id: Proc -> string,
                                                    m: nat, n: nat, p: Proc, q: Proc)
    requires IsRun(worlds, events, id) && m <= n < |worlds| && p != q
    requires p in worlds[m].pcs && HasLease(worlds[m].pcs[p])
    ensures q in worlds[n].pcs && HasLease(worlds[n].pcs[q]) ==> worlds[n].pcs[q].lease != worlds[m].pcs[p].lease
    ensures worlds[m].pcs[p].lease < worlds[n].nextLease
  {
    ReachableSafe(worlds, events, id, m);
    if m < n {
      LeaseStaysWithItsProcess(worlds, events, id, m, n - 1, p, q);
      NoNewOwner(worlds[n - 1], events[n - 1], id, worlds[m].pcs[p].lease, q);
      hide Apply, Enabled, Safe;
    }
  }

  lemma NoNewOwner(w: World, e: Event, id: Proc -> string, l: Lease, q: Proc)
    requires Enabled(w, e) && l < w.nextLease && (q in w.pcs && HasLease(w.pcs[q]) ==> w.pcs[q].lease != l)
    ensures var v := Apply(w, e, id); l < v.nextLease && (q in v.pcs && HasLease(v.pcs[q]) ==> v.pcs[q].lease != l)
  {}

  /** When two fns can run at once: only if one of the two processes runs without etcd, or the
      lease of one of them has ended. */
  lemma FnsOverlapOnlyAfterALease(worlds: seq<World>, events: seq<Event>, id: Proc -> string, n: nat, p: Proc, q: Proc)
    requires IsRun(worlds, events, id) && n < |worlds| && p != q
    requires p in worlds[n].pcs && RunsFn(worlds[n].pcs[p]) && q in worlds[n].pcs && RunsFn(worlds[n].pcs[q])
    ensures || worlds[n].pcs[p].Standalone? || worlds[n].pcs[q].Standalone?
            || worlds[n].pcs[p].lease !in worlds[n].alive || worlds[n].pcs[q].lease !in worlds[n].alive
  {
    AtMostOneLiveLeader(worlds, events, id, n);
    assert HoldsLiveLease(worlds[n], p) && HoldsLiveLease(worlds[n], q) ==> p == q;
  }

  /** And if p still runs fn under a lease that has ended, it ended by expiring, while p was
      elected under it. */
  lemma {:induction false} EndedLeaseExpiredUnderItsLeader(worlds: seq<World>, events: seq<Event>, id: Proc -> string,
                                                           n: nat, p: Proc) returns (i: nat)
    requires IsRun(worlds, events, id) && n < |worlds|
    requires p in worlds[n].pcs && Elected(worlds[n].pcs[p]) && worlds[n].pcs[p].lease !in worlds[n].alive
    ensures i < n && events[i] == Expire(worlds[n].pcs[p].lease)
    ensures p in worlds[i].pcs && Elected(worlds[i].pcs[p]) && worlds[i].pcs[p].lease == worlds[n].pcs[p].lease
  {
    hide Apply, Enabled, Safe;
    ReachableSafe(worlds, events, id, n - 1);
    var s, e := worlds[n - 1], events[n - 1];
    EndOfLease(s, e, id, p);
    if worlds[n].pcs[p].lease in s.alive {
      i := n - 1;
    } else {
      i := EndedLeaseExpiredUnderItsLeader(worlds, events, id, n - 1, p);
    }
  }

  lemma EndOfLease(w: World, e: Event, id: Proc -> string, p: Proc)
    requires Safe(w, id) && Enabled(w, e)
    requires var v := Apply(w, e, id); p in v.pcs && Elected(v.pcs[p]) && v.pcs[p].lease !in v.alive
    ensures var l := Apply(w, e, id).pcs[p].lease;
            && p in w.pcs && Elected(w.pcs[p]) && w.pcs[p].lease == l
            && (l in w.alive ==> e == Expire(l))
  {}

  /** What election does not promise: fn of a deposed leader may still be running when the
      next one starts. Two processes, and the first one's lease expires under it. */
  lemma TwoFnsCanOverlap(id: Proc -> string) returns (worlds: seq<World>, events: seq<Event>)
    ensures IsRun(worlds, events, id) && |worlds| > 0
    ensures var w := worlds[|worlds| - 1]; 0 in w.pcs && 1 in w.pcs && RunsFn(w.pcs[0]) && RunsFn(w.pcs[1])
    ensures var w := worlds[|worlds| - 1]; !HoldsLiveLease(w, 0) && HoldsLiveLease(w, 1)
  {
    hide IsRun;
    worlds, events := LeaseExpiresUnderALeader(id);
    worlds, events := Extend(worlds, events, GrantOk(1), id);
    worlds, events := Extend(worlds, events, TxnOk(1), id);
    worlds, events := Extend(worlds, events, KeepAliveOk(1), id);
    assert worlds[|worlds| - 1] == World(2, {1}, Some(Holder(id(1), 1)), map[0 := Leading(0), 1 := Leading(1)]);
  }

  lemma LeaseExpiresUnderALeader(id: Proc -> string) returns (worlds: seq<World>, events: seq<Event>)
    ensures IsRun(worlds, events, id) && |worlds| > 0
    ensures worlds[|worlds| - 1] == World(1, {}, None, map[0 := Leading(0), 1 := Idle])
  {
    worlds, events := [World(0, {}, None, map[0 := Idle, 1 := Idle])], [];
    hide IsRun;
    worlds, events := Extend(worlds, events, GrantOk(0), id);
    worlds, events := Extend(worlds, events, TxnOk(0), id);
    worlds, events := Extend(worlds, events, KeepAliveOk(0), id);
    worlds, events := Extend(worlds, events, Expire(0), id);
  }

  lemma Extend(worlds: seq<World>, events: seq<Event>, e: Event, id: Proc -> string)
    returns (longer: seq<World>, more: seq<Event>)
    requires IsRun(worlds, events, id) && worlds != [] && Enabled(worlds[|worlds| - 1], e)
    ensures IsRun(longer, more, id) && more == events + [e]
    ensures longer == worlds + [Apply(worlds[|worlds| - 1], e, id)]
  {
    longer, more := worlds + [Apply(worlds[|worlds| - 1], e, id)], events + [e];
  }

  // ----- giving the lease back

  lemma HadLease(w: World, e: Event, id: Proc -> string, p: Proc)
    requires Enabled(w, e) && e != GrantOk(p)
    requires var v := Apply(w, e, id); p in v.pcs && HasLease(v.pcs[p])
    ensures var v := Apply(w, e, id);
            && p in w.pcs && HasLease(w.pcs[p]) && w.pcs[p].lease == v.pcs[p].lease
            && (w.pcs[p].Revoking? ==> v.pcs[p].Revoking?)
  {}

  /** A process got its lease by a grant of its own, and has not revoked anything since. */
  lemma {:induction false} LeaseComesFromAGrant(worlds: seq<World>, events: seq<Event>, id: Proc -> string,
                                                n: nat, p: Proc) returns (g: nat)
    requires IsRun(worlds, events, id) && n < |worlds| && p in worlds[n].pcs && HasLease(worlds[n].pcs[p])
    ensures g < n && events[g] == GrantOk(p) && worlds[g].nextLease == worlds[n].pcs[p].lease
    ensures forall i :: g < i <= n ==>
              p in worlds[i].pcs && HasLease(worlds[i].pcs[p])
              && (worlds[i].pcs[p].Revoking? ==> worlds[n].pcs[p].Revoking?)
  {
    if events[n - 1] == GrantOk(p) {
      g := n - 1;
    } else {
      HadLease(worlds[n - 1], events[n - 1], id, p);
      g := LeaseComesFromAGrant(worlds, events, id, n - 1, p);
      hide Apply, Enabled;
    }
  }

  /** A revoke that succeeds releases the lease, and with it the key, for good. */
  lemma RevokedForGood(worlds: seq<World>, events: seq<Event>, id: Proc -> string, v: nat, n: nat, p: Proc)
    requires IsRun(worlds, events, id) && v < n < |worlds| && events[v] == RevokeOk(p)
    ensures p in worlds[v].pcs && HasLease(worlds[v].pcs[p])
    ensures worlds[v].pcs[p].lease !in worlds[n].alive
    ensures worlds[n].key.Some? ==> worlds[n].key.value.lease != worlds[v].pcs[p].lease
  {
    ReachableSafe(worlds, events, id, v);
    ReachableSafe(worlds, events, id, n);
    assert Enabled(worlds[v], events[v]) && worlds[v + 1] == Apply(worlds[v], events[v], id);
    DeadLeasesStayDead(worlds, events, id, v + 1, n, worlds[v].pcs[p].lease);
  }

  /** From `start` on p has been granted a lease and has then revoked it, or tried to; if the
      revoke succeeded, from then on the lease is dead and the key is not held under it. */
  ghost predicate GivesBack(worlds: seq<World>, events: seq<Event>, start: nat, p: Proc, revoked: bool)
    requires |worlds| == |events| + 1
  {
    exists g: nat, v: nat ::
      && start <= g < v < |events| && events[g] == GrantOk(p)
      && events[v] == (if revoked then RevokeOk(p) else RevokeFails(p))
      && (revoked ==> forall n :: v < n < |worlds| ==>
            && worlds[g].nextLease !in worlds[n].alive
            && (worlds[n].key.Some? ==> worlds[n].key.value.lease != worlds[g].nextLease))
  }

  /** From `start` on p has been granted a lease, and has not revoked it. */
  ghost predicate KeepsLease(events: seq<Event>, start: nat, p: Proc) {
    exists g: nat ::
      && start <= g < |events| && events[g] == GrantOk(p)
      && forall v :: g < v < |events| ==> events[v] != RevokeOk(p) && events[v] != RevokeFails(p)
  }

  ghost predicate RevokedSince(events: seq<Event>, start: nat, p: Proc, revoked: bool) {
    exists v: nat :: start <= v < |events| && events[v] == if revoked then RevokeOk(p) else RevokeFails(p)
  }

  lemma GaveBack(worlds: seq<World>, events: seq<Event>, id: Proc -> string, start: nat, p: Proc, revoked: bool)
    requires IsRun(worlds, events, id) && start < |worlds|
    requires p in worlds[start].pcs && worlds[start].pcs[p] == Idle
    requires RevokedSince(events, start, p, revoked)
    ensures GivesBack(worlds, events, start, p, revoked)
  {
    var v: nat :| start <= v < |events| && events[v] == if revoked then RevokeOk(p) else RevokeFails(p);
    assert Enabled(worlds[v], events[v]);
    var g := LeaseComesFromAGrant(worlds, events, id, v, p);
    if revoked {
      forall n | v < n < |worlds|
        ensures worlds[g].nextLease !in worlds[n].alive
        ensures worlds[n].key.Some? ==> worlds[n].key.value.lease != worlds[g].nextLease
      {
        RevokedForGood(worlds, events, id, v, n, p);
      }
    }
  }

  /** p has just come back from fn after its keep-alive ended. */
  ghost predicate LostIt(worlds: seq<World>, events: seq<Event>, p: Proc) {
    && |worlds| == |events| + 1 > 1 && events[|events| - 1] == FnReturns(p)
    && p in worlds[|events| - 1].pcs && worlds[|events| - 1].pcs[p].Stopping?
  }

  lemma KeptLease(worlds: seq<World>, events: seq<Event>, id: Proc -> string, start: nat, p: Proc)
    requires IsRun(worlds, events, id) && start < |events| && LostIt(worlds, events, p)
    requires p in worlds[start].pcs && worlds[start].pcs[p] == Idle
    ensures KeepsLease(events, start, p)
  {
    var last := |events| - 1;
    var g := LeaseComesFromAGrant(worlds, events, id, last, p);
    assert g >= start;
    forall v | g < v < |events| ensures events[v] != RevokeOk(p) && events[v] != RevokeFails(p) {
      assert Enabled(worlds[v], events[v]);
    }
    hide Apply, Enabled;
  }

  // ----- the code of one attempt, as a process of the protocol

  function Mover(e: Event): Option<Proc> {
    if e.Expire? then None else Some(e.p)
  }

  /** From a moment on p exists and does not run fn. */
  ghost predicate NeverRuns(worlds: seq<World>, start: nat, p: Proc) {
    forall n :: start <= n < |worlds| ==> p in worlds[n].pcs && !RunsFn(worlds[n].pcs[p])
  }

  /** The shared world, with the run so far as history. */
  class Etcd {
    const id: Proc -> string
    var world: World
    ghost var worlds: seq<World>
    ghost var events: seq<Event>

    ghost predicate Valid()
      reads this
    {
      IsRun(worlds, events, id) && worlds[|worlds| - 1] == world
    }

    constructor (procs: set<Proc>, id: Proc -> string)
      ensures Valid() && this.id == id && world.pcs == map p | p in procs :: Idle
    {
      this.id := id;
      world := World(0, {}, None, map p | p in procs :: Idle);
      worlds, events := [World(0, {}, None, map p | p in procs :: Idle)], [];
    }

    method Step(e: Event)
      requires Valid() && Enabled(world, e)
      modifies this
      ensures Valid() && world == Apply(old(world), e, id)
      ensures worlds == old(worlds) + [world] && events == old(events) + [e]
    {
      world := Apply(world, e, id);
      worlds, events := worlds + [world], events + [e];
    }

    /** Whatever other processes and the clock do meanwhile. */
    method Meanwhile(others: seq<Event>, p: Proc)
      requires Valid() && p in world.pcs
      modifies this
      ensures Valid() && old(worlds) <= worlds && old(events) <= events
      ensures p in world.pcs && world.pcs[p] == old(world).pcs[p]
      ensures forall n :: |old(worlds)| <= n < |worlds| ==> p in worlds[n].pcs && worlds[n].pcs[p] == world.pcs[p]
      ensures !RunsFn(world.pcs[p]) ==> NeverRuns(worlds, |old(worlds)|, p)
    {
      for i := 0 to |others|
        invariant Valid() && old(worlds) <= worlds && old(events) <= events
        invariant p in world.pcs && world.pcs[p] == old(world).pcs[p]
        invariant forall n :: |old(worlds)| <= n < |worlds| ==> p in worlds[n].pcs && worlds[n].pcs[p] == world.pcs[p]
      {
        if Enabled(world, others[i]) && Mover(others[i]) != Some(p) {
          OthersLeaveAlone(world, others[i], id, p);
          Step(others[i]);
        }
      }
    }

    /** Revoke, whose result is not looked at; a follower then watches the key. */
    method Leave(p: Proc, revoked: bool, before: seq<Event>, others: seq<Event>)
      requires Valid() && p in world.pcs && world.pcs[p].Revoking?
      modifies this
      ensures Valid() && old(worlds) <= worlds && old(events) <= events && p in world.pcs && world.pcs[p] == Idle
      ensures NeverRuns(worlds, |old(worlds)|, p)
      ensures RevokedSince(events, |old(events)|, p, revoked)
      ensures old(world).pcs[p].follow ==> events[|events| - 1] == WatchEnds(p)
    {
      hide IsRun;
      Meanwhile(before, p);
      ghost var v := |events|;
      if revoked {
        Step(RevokeOk(p));
      } else {
        Step(RevokeFails(p));
      }
      ghost var soFar := events;
      assert soFar[v] == if revoked then RevokeOk(p) else RevokeFails(p);
      Meanwhile(others, p);
      if world.pcs[p] == Following {
        Step(WatchEnds(p));
      }
      assert events[v] == soFar[v];
    }
  }

  lemma OthersLeaveAlone(w: World, e: Event, id: Proc -> string, p: Proc)
    requires Enabled(w, e) && Mover(e) != Some(p) && p in w.pcs
    ensures p in Apply(w, e, id).pcs && Apply(w, e, id).pcs[p] == w.pcs[p]
  {}

  datatype Reply = Done | Lost | Fails
  datatype Ending = LeaseLost | FnDone | ContextDone

  /** p has found the key taken. */
  ghost predicate Follows(w: World, p: Proc) {
    p in w.pcs && w.pcs[p].Revoking? && w.pcs[p].follow && w.key != None
  }

  /** p's lease has ended before the key was its own. */
  ghost predicate LeaseDiedEarly(w: World, p: Proc) {
    p in w.pcs && w.pcs[p].Granted? && w.key == None && w.pcs[p].lease !in w.alive
  }

  ghost predicate HasRun(worlds: seq<World>, start: nat, p: Proc) {
    exists n :: start <= n < |worlds| && p in worlds[n].pcs && RunsFn(worlds[n].pcs[p])
  }

  ghost predicate HasFollowed(worlds: seq<World>, start: nat, p: Proc) {
    exists n :: start <= n < |worlds| && Follows(worlds[n], p)
  }

  ghost predicate HasLostRace(worlds: seq<World>, start: nat, p: Proc) {
    exists n :: start <= n < |worlds| && LeaseDiedEarly(worlds[n], p)
  }

  /** One call of tryBecomeLeader by process p, with the replies it gets, and with any steps of
      others between its own. Whatever happens, the run stays a run of the protocol - so at
      every point of it there is at most one live leader - and p ends where it began. It
      has run fn exactly when it won the key and the keep-alive started. It reports an error if
      the grant or the transaction failed, also if the keep-alive did, unless the key was
      found taken, in which case it has followed; and after leading exactly if it lost the
      lease. Once it has been granted a lease it revokes it before it returns - so that, if
      the revoke succeeds, the key is free of it for good - except if it has lost it. A
      follower returns when the key is released. */
  method TryBecomeLeader(etcd: Etcd, p: Proc, grant: Reply, txn: Reply, keepAlive: bool, ending: Ending,
                         revoked: bool, others: seq<seq<Event>>) returns (led: bool, err: bool)
    requires etcd.Valid() && p in etcd.world.pcs && etcd.world.pcs[p] == Idle && |others| == 7
    modifies etcd
    ensures etcd.Valid() && old(etcd.worlds) <= etcd.worlds && old(etcd.events) <= etcd.events
    ensures p in etcd.world.pcs && etcd.world.pcs[p] == Idle
    ensures led <==> HasRun(etcd.worlds, |old(etcd.worlds)|, p)
    ensures led ==> keepAlive && (err <==> ending.LeaseLost?)
    ensures grant.Done? && !(led && err) ==>
              GivesBack(etcd.worlds, etcd.events, |old(etcd.events)|, p, revoked)
    ensures led && err ==> KeepsLease(etcd.events, |old(etcd.events)|, p)
    ensures !led && !err ==> etcd.events != [] && etcd.events[|etcd.events| - 1] == WatchEnds(p)
    ensures grant != Done || txn != Done ==> err
    ensures !led && !err ==> HasFollowed(etcd.worlds, |old(etcd.worlds)|, p)
    ensures err && !led && grant.Done? && txn.Done? && keepAlive ==> HasLostRace(etcd.worlds, |old(etcd.worlds)|, p)
  {
    hide IsRun, Apply, Enabled, GivesBack, KeepsLease, RevokedSince, LostIt, HasRun, HasFollowed, HasLostRace;
    ghost var before, sofar := etcd.worlds, etcd.events;
    led, err := Attempt(etcd, p, grant, txn, keepAlive, ending, revoked, others);
    if led || grant.Done? {
      KeptOrGaveBack(before, sofar, etcd.worlds, etcd.events, etcd.id, p, revoked, led && err);
    }
  }

  lemma KeptOrGaveBack(before: seq<World>, sofar: seq<Event>, worlds: seq<World>, events: seq<Event>,
                       id: Proc -> string, p: Proc, revoked: bool, lost: bool)
    requires IsRun(before, sofar, id) && IsRun(worlds, events, id) && before <= worlds && sofar <= events
    requires p in before[|before| - 1].pcs && before[|before| - 1].pcs[p] == Idle
    requires if lost then LostIt(worlds, events, p) && HasRun(worlds, |before|, p)
             else RevokedSince(events, |sofar|, p, revoked)
    ensures |worlds| == |events| + 1
    ensures if lost then KeepsLease(events, |sofar|, p) else GivesBack(worlds, events, |sofar|, p, revoked)
  {
    assert before[|sofar|] == worlds[|sofar|];
    hide GivesBack, KeepsLease, RevokedSince, LostIt;
    if lost {
      KeptLease(worlds, events, id, |sofar|, p);
    } else {
      GaveBack(worlds, events, id, |sofar|, p, revoked);
    }
  }

  lemma Lengths(worlds: seq<World>, events: seq<Event>, id: Proc -> string)
    requires IsRun(worlds, events, id)
    ensures |worlds| == |events| + 1
  {}

  /** The steps of TryBecomeLeader. */
  method Attempt(etcd: Etcd, p: Proc, grant: Reply, txn: Reply, keepAlive: bool, ending: Ending,
                 revoked: bool, others: seq<seq<Event>>) returns (led: bool, err: bool)
    requires etcd.Valid() && p in etcd.world.pcs && etcd.world.pcs[p] == Idle && |others| == 7
    modifies etcd
    ensures etcd.Valid() && old(etcd.worlds) <= etcd.worlds && old(etcd.events) <= etcd.events
    ensures p in etcd.world.pcs && etcd.world.pcs[p] == Idle
    ensures led <==> HasRun(etcd.worlds, |old(etcd.worlds)|, p)
    ensures led ==> keepAlive && (err <==> ending.LeaseLost?)
    ensures grant != Done || txn != Done ==> err
    ensures !led && !err ==> HasFollowed(etcd.worlds, |old(etcd.worlds)|, p)
    ensures err && !led && grant.Done? && txn.Done? && keepAlive ==> HasLostRace(etcd.worlds, |old(etcd.worlds)|, p)
    ensures grant.Done? && !(led && err) ==> RevokedSince(etcd.events, |old(etcd.events)|, p, revoked)
    ensures led && err ==> LostIt(etcd.worlds, etcd.events, p)
    ensures !led && !err ==> etcd.events != [] && etcd.events[|etcd.events| - 1] == WatchEnds(p)
  {
    hide IsRun, Apply, Enabled, RevokedSince, LostIt, NeverRuns, Settled, HasRun, HasFollowed, HasLostRace;
    ghost var start, first := |etcd.events|, etcd.worlds;
    Compete(etcd, p, grant, txn, others[0], others[1]);
    ghost var second := etcd.worlds;
    if grant.Done? {
      WonOrRevoking(second[|second| - 2], second[|second| - 1], p, txn);
    }
    if etcd.world.pcs[p].Idle? {
      NeverRan(first, second, p);
      return false, true;
    }
    etcd.Meanwhile(others[2], p);
    ghost var third, later := etcd.worlds, |etcd.events|;
    if etcd.world.pcs[p].Revoking? {
      err := !etcd.world.pcs[p].follow;
      etcd.Leave(p, revoked, others[3], others[4]);
      SinceEarlier(etcd.events, start, later, p, revoked);
      StillNeverRuns(first, second, third, p);
      StillNeverRuns(first, third, etcd.worlds, p);
      NeverRan(first, etcd.worlds, p);
      LostOrFollowed(first, second, etcd.worlds, p, txn);
      return false, err;
    }
    if !keepAlive {
      Resign(etcd, p, revoked, others[3], others[4]);
      SinceEarlier(etcd.events, start, later, p, revoked);
      StillNeverRuns(first, second, third, p);
      StillNeverRuns(first, third, etcd.worlds, p);
      NeverRan(first, etcd.worlds, p);
      return false, true;
    }
    err := Lead(etcd, p, ending, revoked, others[3], others[4], others[5..]);
    RanSince(etcd.worlds, |first|, |third|, p);
    if !ending.LeaseLost? {
      SinceEarlier(etcd.events, start, later, p, revoked);
    }
    return true, err;
  }

  lemma RanSince(worlds: seq<World>, start: nat, later: nat, p: Proc)
    requires start <= later && HasRun(worlds, later, p)
    ensures HasRun(worlds, start, p)
  {}

  lemma NeverRan(a: seq<World>, b: seq<World>, p: Proc)
    requires a <= b && NeverRuns(b, |a|, p)
    ensures !HasRun(b, |a|, p)
  {}

  lemma WonOrRevoking(before: World, w: World, p: Proc, txn: Reply)
    requires Settled(before, w, p, txn)
    ensures p in w.pcs && (w.pcs[p].Won? || w.pcs[p].Revoking?) && (w.pcs[p].Won? ==> txn.Done?)
  {}

  lemma LostOrFollowed(a: seq<World>, b: seq<World>, c: seq<World>, p: Proc, txn: Reply)
    requires a <= b <= c && |a| <= |b| - 2 && Settled(b[|b| - 2], b[|b| - 1], p, txn)
    ensures p in b[|b| - 1].pcs && b[|b| - 1].pcs[p].Revoking? ==>
              if b[|b| - 1].pcs[p].follow then txn.Done? && HasFollowed(c, |a|, p)
              else txn.Done? ==> HasLostRace(c, |a|, p)
  {
    assert b[|b| - 1] == c[|b| - 1] && b[|b| - 2] == c[|b| - 2];
    hide Follows, LeaseDiedEarly;
  }

  lemma SinceEarlier(events: seq<Event>, start: nat, later: nat, p: Proc, revoked: bool)
    requires start <= later && RevokedSince(events, later, p, revoked)
    ensures RevokedSince(events, start, p, revoked)
  {}

  /** The part of TryBecomeLeader from the start of the keep-alive on. */
  method Lead(etcd: Etcd, p: Proc, ending: Ending, revoked: bool, others: seq<Event>, later: seq<Event>,
              last: seq<seq<Event>>) returns (err: bool)
    requires |last| == 2 && etcd.Valid() && p in etcd.world.pcs && etcd.world.pcs[p].Won?
    modifies etcd
    ensures etcd.Valid() && old(etcd.worlds) <= etcd.worlds && old(etcd.events) <= etcd.events
    ensures p in etcd.world.pcs && etcd.world.pcs[p] == Idle
    ensures HasRun(etcd.worlds, |old(etcd.worlds)|, p)
    ensures err <==> ending.LeaseLost?
    ensures if ending.LeaseLost? then LostIt(etcd.worlds, etcd.events, p)
            else RevokedSince(etcd.events, |old(etcd.events)|, p, revoked)
  {
    hide IsRun, RevokedSince, HasRun;
    ghost var start := |etcd.events|;
    etcd.Step(KeepAliveOk(p));
    ghost var leading := etcd.worlds;
    etcd.Meanwhile(others, p);
    match ending {
      case FnDone =>
        etcd.Step(FnReturns(p));
      case LeaseLost =>
        etcd.Step(KeepAliveEnds(p));
        etcd.Meanwhile(later, p);
        Lengths(etcd.worlds, etcd.events, etcd.id);
        etcd.Step(FnReturns(p));
        RunsAt(leading, etcd.worlds, p);
        return true;
      case ContextDone =>
        etcd.Step(Cancelled(p));
        etcd.Meanwhile(later, p);
        etcd.Step(FnReturns(p));
    }
    ghost var left := |etcd.events|;
    etcd.Leave(p, revoked, last[0], last[1]);
    SinceEarlier(etcd.events, start, left, p, revoked);
    RunsAt(leading, etcd.worlds, p);
    return false;
  }

  lemma RunsAt(a: seq<World>, b: seq<World>, p: Proc)
    requires a != [] && a <= b && p in a[|a| - 1].pcs && RunsFn(a[|a| - 1].pcs[p])
    ensures HasRun(b, |a| - 1, p)
  {
    assert b[|a| - 1] == a[|a| - 1];
  }

  /** The grant and the transaction. The process ends without a lease, as the winner, or about
      to revoke: as a follower, or because of a failure. */
  method Compete(etcd: Etcd, p: Proc, grant: Reply, txn: Reply, before: seq<Event>, between: seq<Event>)
    requires etcd.Valid() && p in etcd.world.pcs && etcd.world.pcs[p] == Idle
    modifies etcd
    ensures etcd.Valid() && old(etcd.worlds) <= etcd.worlds && old(etcd.events) <= etcd.events && p in etcd.world.pcs
    ensures NeverRuns(etcd.worlds, |old(etcd.worlds)|, p)
    ensures !grant.Done? ==> etcd.world.pcs[p].Idle?
    ensures grant.Done? ==>
              && |old(etcd.worlds)| <= |etcd.worlds| - 2
              && Settled(etcd.worlds[|etcd.worlds| - 2], etcd.worlds[|etcd.worlds| - 1], p, txn)
  {
    hide IsRun, Apply, Enabled, Settled, NeverRuns;
    ghost var start := etcd.worlds;
    Prepare(etcd, p, grant, before, between);
    if !grant.Done? {
      return;
    }
    ghost var soFar := etcd.worlds;
    Contest(etcd, p, txn);
    StillNeverRuns(start, soFar, etcd.worlds, p);
  }

  /** Up to the transaction, and what others do before and after the grant. */
  method Prepare(etcd: Etcd, p: Proc, grant: Reply, before: seq<Event>, between: seq<Event>)
    requires etcd.Valid() && p in etcd.world.pcs && etcd.world.pcs[p] == Idle
    modifies etcd
    ensures etcd.Valid() && old(etcd.worlds) <= etcd.worlds && old(etcd.events) <= etcd.events && p in etcd.world.pcs
    ensures NeverRuns(etcd.worlds, |old(etcd.worlds)|, p)
    ensures if grant.Done? then etcd.world.pcs[p].Granted? && |old(etcd.worlds)| < |etcd.worlds|
            else etcd.world.pcs[p] == Idle
  {
    hide IsRun, Apply, Enabled, NeverRuns;
    ghost var start := etcd.worlds;
    etcd.Meanwhile(before, p);
    ghost var soFar := etcd.worlds;
    Grant(etcd, p, grant);
    StillNeverRuns(start, soFar, etcd.worlds, p);
    if grant.Done? {
      soFar := etcd.worlds;
      etcd.Meanwhile(between, p);
      StillNeverRuns(start, soFar, etcd.worlds, p);
    }
  }

  /** How the transaction leaves p: as the winner, about to follow because the key is taken, or
      about to give up because a call failed or the lease had died. */
  ghost predicate Settled(before: World, w: World, p: Proc, txn: Reply) {
    && p in w.pcs
    && match w.pcs[p]
       case Won(_) => txn.Done?
       case Revoking(_, follow) =>
         if follow then txn.Done? && Follows(w, p) else txn.Done? ==> LeaseDiedEarly(before, p)
       case _ => false
  }

  lemma StillNeverRuns(a: seq<World>, b: seq<World>, c: seq<World>, p: Proc)
    requires a <= b <= c && NeverRuns(b, |a|, p) && NeverRuns(c, |b|, p)
    ensures a <= c && NeverRuns(c, |a|, p)
  {
    assert forall n :: 0 <= n < |b| ==> c[n] == b[n];
  }

  lemma LastButOne(worlds: seq<World>, longer: seq<World>, w: World)
    requires worlds != [] && longer == worlds + [w]
    ensures longer[|longer| - 1] == w && longer[|longer| - 2] == worlds[|worlds| - 1] && worlds <= longer
  {}

  method Grant(etcd: Etcd, p: Proc, grant: Reply)
    requires etcd.Valid() && p in etcd.world.pcs && etcd.world.pcs[p] == Idle
    modifies etcd
    ensures etcd.Valid() && old(etcd.worlds) <= etcd.worlds && old(etcd.events) <= etcd.events && p in etcd.world.pcs
    ensures NeverRuns(etcd.worlds, |old(etcd.worlds)|, p)
    ensures if grant.Done? then etcd.world.pcs[p].Granted? && |old(etcd.worlds)| < |etcd.worlds|
            else etcd.world.pcs[p] == Idle
  {
    hide IsRun;
    if grant.Lost? {
      etcd.Step(GrantLost(p));
    }
    if grant.Done? {
      etcd.Step(GrantOk(p));
    }
  }

  /** The keep-alive could not be started. */
  method Resign(etcd: Etcd, p: Proc, revoked: bool, before: seq<Event>, others: seq<Event>)
    requires etcd.Valid() && p in etcd.world.pcs && etcd.world.pcs[p].Won?
    modifies etcd
    ensures etcd.Valid() && old(etcd.worlds) <= etcd.worlds && old(etcd.events) <= etcd.events
    ensures p in etcd.world.pcs && etcd.world.pcs[p] == Idle && NeverRuns(etcd.worlds, |old(etcd.worlds)|, p)
    ensures RevokedSince(etcd.events, |old(etcd.events)|, p, revoked)
  {
    hide IsRun;
    etcd.Step(KeepAliveFails(p));
    ghost var left := |etcd.events|;
    etcd.Leave(p, revoked, before, others);
    SinceEarlier(etcd.events, left - 1, left, p, revoked);
  }

  /** The transaction: create the key if it is absent. */
  method Contest(etcd: Etcd, p: Proc, txn: Reply)
    requires etcd.Valid() && p in etcd.world.pcs && etcd.world.pcs[p].Granted?
    modifies etcd
    ensures etcd.Valid() && etcd.worlds == old(etcd.worlds) + [etcd.world] && old(etcd.events) <= etcd.events
    ensures p in etcd.world.pcs && (etcd.world.pcs[p].Won? || etcd.world.pcs[p].Revoking?)
    ensures etcd.world.pcs[p].Won? ==>
              && txn.Done? && old(etcd.world).key == None
              && etcd.world.key == Some(Holder(etcd.id(p), etcd.world.pcs[p].lease))
    ensures NeverRuns(etcd.worlds, |old(etcd.worlds)|, p)
    ensures |etcd.worlds| >= 2 && Settled(etcd.worlds[|etcd.worlds| - 2], etcd.worlds[|etcd.worlds| - 1], p, txn)
  {
    ghost var w, soFar := etcd.world, etcd.worlds;
    assert soFar != [] && soFar[|soFar| - 1] == w;
    hide IsRun;
    if txn.Done? && Enabled(etcd.world, TxnOk(p)) {
      etcd.Step(TxnOk(p));
    } else if txn.Lost? {
      etcd.Step(TxnLost(p));
    } else {
      etcd.Step(TxnFails(p));
    }
    LastButOne(soFar, etcd.worlds, etcd.world);
    assert Settled(w, etcd.world, p, txn);
  }
}
